/**
 Restarting from MAX(F_block)-1: what the query yields, and exactly when the
 new cursor stands on a linked prefix again.
 */
module Restarts {
  import opened Common
  import opened Chain
  import opened Tables
  import opened Follower

  /*--- MAX(F_block) ---*/

  /** A non-empty set of block rows has a highest one. */
  lemma {:induction false} Highest(s: Store, ks: set<Hash>) returns (top: Hash)
    requires ks != {} && ks <= s.blocks.Keys
    ensures top in ks && forall k | k in ks :: s.blocks[k].height <= s.blocks[top].height
    decreases |ks|
  {
    top :| top in ks;
    var rest := ks - {top};
    assert forall k | k in ks :: k == top || k in rest;
    if rest != {} {
      var other := Highest(s, rest);
      top := if s.blocks[top].height > s.blocks[other].height then top else other;
    }
  }

  /** The MAX query over the finite table has an answer, and a restart reads it. */
  lemma MaxExists(s: Store, u: Universe)
    requires RowsServed(s, u) && BlocksConsistent(u)
    ensures IsMax(s, MaxHeight(s))
    ensures MaxHeight(s) >= 0
  {
    var ks := set k | k in s.blocks && s.blocks[k].status == Normal;
    assert forall h :: At(s, h).Some? ==> At(s, h).value in ks;
    if ks == {} {
      assert IsMax(s, 0);
    } else {
      var top := Highest(s, ks);
      assert IsNormal(s, top, s.blocks[top].height);
      assert IsMax(s, s.blocks[top].height);
    }
    assert IsMax(s, MaxHeight(s));
    assert At(s, MaxHeight(s)).Some? ==> IsNormal(s, At(s, MaxHeight(s)).value, MaxHeight(s));
  }

  lemma MaxIs(s: Store, u: Universe, m: int)
    requires RowsServed(s, u) && BlocksConsistent(u) && At(s, m).Some? && forall h :: h > m ==> At(s, h).None?
    ensures MaxHeight(s) == m
  {
    MaxExists(s, u);
    assert IsNormal(s, At(s, m).value, m);
  }

  lemma RestartLoose(st: State, u: Universe)
    requires Loose(st, u) && BlocksConsistent(u)
    ensures Loose(Restarted(st), u)
  {
    MaxExists(st.store, u);
  }

  /*--- Holes, found by counting ---*/

  /** The NORMAL block rows with F_block < n. */
  function NormalBelow(s: Store, n: int): set<Hash> {
    set k | k in s.blocks && s.blocks[k].status == Normal && s.blocks[k].height < n
  }

  lemma NoneBelow(s: Store, u: Universe, n: int)
    requires RowsServed(s, u) && BlocksConsistent(u) && n <= 0
    ensures NormalBelow(s, n) == {}
  {}

  /** One height more adds its NORMAL row, if it has one. */
  lemma BelowNext(s: Store, n: int)
    requires Unique(s)
    ensures |NormalBelow(s, n + 1)| == |NormalBelow(s, n)| + if At(s, n).Some? then 1 else 0
  {
    assert forall k | k in s.blocks && s.blocks[k].status == Normal :: s.blocks[k].height == n ==> IsNormal(s, k, n);
    if At(s, n).Some? {
      assert NormalBelow(s, n + 1) == NormalBelow(s, n) + {At(s, n).value};
    } else {
      assert NormalBelow(s, n + 1) == NormalBelow(s, n);
    }
  }

  /** Every height below `n` has a NORMAL row. */
  ghost predicate Full(s: Store, n: int) {
    forall h :: 0 <= h < n ==> At(s, h).Some?
  }

  lemma FullNext(s: Store, n: nat)
    ensures Full(s, n + 1) <==> Full(s, n) && At(s, n).Some?
  {}

  /** There are at most n NORMAL rows below height n, and n of them exactly when no height is missing. */
  lemma {:induction false} CountBelow(s: Store, u: Universe, n: nat)
    requires StoreInv(s, u) && BlocksConsistent(u)
    ensures |NormalBelow(s, n)| <= n
    ensures |NormalBelow(s, n)| == n <==> Full(s, n)
  {
    if n == 0 {
      NoneBelow(s, u, n);
    } else {
      CountBelow(s, u, n - 1);
      BelowNext(s, n - 1);
      FullNext(s, n - 1);
    }
  }

  /*--- Links ---*/

  /** The NORMAL row one height below `k` is not the parent that row `k` names. */
  ghost predicate Mislinked(s: Store, k: Hash) {
    k in s.blocks && Misfits(s, s.blocks[k].parentHash, s.blocks[k].height - 1)
  }

  /** There is a NORMAL row at `h` other than `parent`. */
  ghost predicate Misfits(s: Store, parent: Hash, h: int) {
    exists j :: IsNormal(s, j, h) && j != parent
  }

  /** The NORMAL rows strictly between heights `c` and `m` that do not fit on the row below. */
  ghost function MislinkedRows(s: Store, c: int, m: int): set<Hash> {
    set k | k in s.blocks && s.blocks[k].status == Normal && c < s.blocks[k].height < m && Mislinked(s, k)
  }

  lemma LinkedIff(s: Store, h: int)
    requires Unique(s)
    ensures Linked(s, h) <==> (At(s, h).Some? ==> !Mislinked(s, At(s, h).value))
  {
    if At(s, h).Some? && At(s, h - 1).Some? {
      assert IsNormal(s, At(s, h - 1).value, h - 1);
    }
  }

  lemma LinksAbove(s: Store, c: int, m: int)
    requires Unique(s)
    ensures MislinkedRows(s, c, m) == {} <==> forall h :: c < h < m ==> Linked(s, h)
  {
    forall h ensures Linked(s, h) <==> (At(s, h).Some? ==> !Mislinked(s, At(s, h).value)) {
      LinkedIff(s, h);
    }
    if MislinkedRows(s, c, m) == {} {
      forall h | c < h < m ensures Linked(s, h) {
        assert At(s, h).Some? ==> At(s, h).value !in MislinkedRows(s, c, m);
      }
    } else {
      var k :| k in MislinkedRows(s, c, m);
      AtIs(s, k, s.blocks[k].height);
      assert !Linked(s, s.blocks[k].height);
    }
  }

  /*--- The check ---*/

  /**
   What an operator can query before a restart: there are MAX-1 NORMAL rows
   below height MAX-1, and no row between the cursor and MAX is mislinked.
   */
  ghost predicate Restartable(st: State) {
    var m := MaxHeight(st.store);
    && |NormalBelow(st.store, m - 1)| == (if m > 0 then m - 1 else 0)
    && MislinkedRows(st.store, st.cursor, m) == {}
  }

  lemma NoHolesIff(s: Store, u: Universe, m: int)
    requires StoreInv(s, u) && BlocksConsistent(u) && m >= 0
    ensures |NormalBelow(s, m - 1)| == (if m > 0 then m - 1 else 0) <==> Full(s, m - 1)
  {
    if m > 0 {
      CountBelow(s, u, m - 1);
    } else {
      NoneBelow(s, u, m - 1);
    }
  }

  /** A restart stands on a linked prefix again exactly when the two queries come out right. */
  lemma RestartSafeIff(st: State, u: Universe)
    requires Safe(st, u) && BlocksConsistent(u)
    ensures Safe(Restarted(st), u) <==> Restartable(st)
  {
    var s, c, m := st.store, st.cursor, MaxHeight(st.store);
    MaxExists(s, u);
    NoHolesIff(s, u, m);
    LinksAbove(s, c, m);
    PrefixSplit(s, c, m - 1);
    RestartLoose(st, u);
  }

  lemma PrefixSplit(s: Store, c: int, n: int)
    requires Prefix(s, c) && c >= -1
    ensures Prefix(s, n) <==> Full(s, n) && (forall h :: c < h < n + 1 ==> h < 1 || Linked(s, h))
  {}

  /** Without stale rows above the cursor the queries always come out right. */
  lemma NoStaleRestartable(st: State, u: Universe)
    requires Safe(st, u) && BlocksConsistent(u) && NoStale(st.store, st.cursor)
    ensures Restartable(st)
    ensures Restarted(st).cursor <= st.cursor
  {
    MaxExists(st.store, u);
    RestartSafeIff(st, u);
    RestartLoose(st, u);
  }
}
