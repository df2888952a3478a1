/**
 The chain follower as a state machine over whole runs: a cursor, the tables,
 and an environment that may grow, shrink or switch the chain, fail any RPC or
 database call, lose a COMMIT unnoticed, panic, and kill the process.
 */
module Follower {
  import opened Common
  import opened Chain
  import opened Tables

  /*--- SyncOneBlock ---*/

  /**
   What goes wrong during one SyncOneBlock: `readFails`, an RPC or a query
   fails after DropBlok; `blockFails`, WriteBlock fails; `blockLost`, the COMMIT
   reviving the block row fails unnoticed; `reached`, the transactions
   WriteTransactions gets to; `lost`, those whose reviving COMMIT fails
   unnoticed; `panics`, a stop is a panic.
   */
  datatype SyncIO = SyncIO(
    drop: DropIO, readFails: bool, blockFails: bool, blockLost: bool, reached: set<Hash>, lost: set<Hash>, panics: bool)

  datatype Verdict = Done | WalkBack | Stopped

  datatype Synced = Synced(store: Store, verdict: Verdict)

  /** The NORMAL row below `h` is missing, or is not the parent the chain reports. */
  ghost predicate ParentDiffers(s: Store, f: Fetch, h: int) {
    h != 0 && At(s, h - 1) != Some(f.parent.hash)
  }

  /** WriteTransactions on the tables WriteBlock left. */
  ghost function WriteAll(s: Store, b: ChainBlock, io: SyncIO): Synced {
    Synced(PutTxs(s, b, Saved(s, io.reached, io.lost)),
           if AllWritable(s, b) && b.txs.Keys <= io.reached then Done else Stopped)
  }

  ghost function SyncOneBlock(s: Store, f: Fetch, h: int, io: SyncIO): Synced {
    var d := Drop(s, h, io.drop);
    if !d.ok || io.readFails then Synced(d.store, Stopped)
    else if ParentDiffers(d.store, f, h) then Synced(d.store, WalkBack)
    else if io.blockFails || !BlockWritable(d.store, f.block) then Synced(d.store, Stopped)
    else WriteAll(SaveBlock(d.store, f.block, io.blockLost), f.block, io)
  }

  ghost predicate Yields(s: Store, f: Fetch, h: int, io: SyncIO, r: Synced) {
    r == SyncOneBlock(s, f, h, io)
  }

  ghost predicate IsOutcome(s: Store, f: Fetch, h: int, io: SyncIO, o: Synced) {
    forall r :: Yields(s, f, h, io, r) ==> o == r
  }

  /**
   The outcome of SyncOneBlock as the loop sees it. What the proofs about the
   loop know of it is what the lemmas of this section say, not the call's body.
   */
  ghost function Outcome(s: Store, f: Fetch, h: int, io: SyncIO): Synced {
    assert IsOutcome(s, f, h, io, SyncOneBlock(s, f, h, io));
    var o :| IsOutcome(s, f, h, io, o);
    o
  }

  lemma OutcomeIs(s: Store, f: Fetch, h: int, io: SyncIO)
    ensures Outcome(s, f, h, io) == SyncOneBlock(s, f, h, io)
  {
    assert Yields(s, f, h, io, SyncOneBlock(s, f, h, io));
  }

  /** The call gets as far as WriteTransactions. */
  ghost predicate Writes(s: Store, f: Fetch, h: int, io: SyncIO) {
    var d := Drop(s, h, io.drop);
    d.ok && !io.readFails && !ParentDiffers(d.store, f, h) && !io.blockFails && BlockWritable(d.store, f.block)
  }

  lemma WritesAll(s: Store, f: Fetch, h: int, io: SyncIO)
    requires Writes(s, f, h, io)
    ensures Outcome(s, f, h, io) == WriteAll(SaveBlock(Drop(s, h, io.drop).store, f.block, io.blockLost), f.block, io)
  {
    OutcomeIs(s, f, h, io);
  }

  /** The gateway answers both calls, perhaps from two chain views, or the call fails. */
  ghost predicate Answered(u: Universe, f: Fetch, h: int, io: SyncIO) {
    io.readFails || FetchServed(u, f, h)
  }

  /** The fetched block sits at `h` in the new tables, over the parent the old tables had. */
  ghost predicate Extends(s: Store, s': Store, f: Fetch, h: int, io: SyncIO) {
    At(s', h) == Some(f.block.hash) && !ParentDiffers(s, f, h) && !io.readFails
  }

  /**
   What one SyncOneBlock may do to the NORMAL rows: the row at `h` stays, goes,
   or is the fetched block over its parent. It ends well only over its parent,
   with the block there unless its revival was lost, and walks back only from
   a parent that differs.
   */
  ghost predicate RowsMoved(s: Store, r: Synced, f: Fetch, h: int, io: SyncIO) {
    && (At(r.store, h) == At(s, h) || At(r.store, h).None? || Extends(s, r.store, f, h, io))
    && (r.verdict == Done ==>
          && !ParentDiffers(s, f, h) && !io.readFails
          && (At(r.store, h) == Some(f.block.hash) || (io.blockLost && At(r.store, h).None?)))
    && (r.verdict == WalkBack ==> ParentDiffers(s, f, h) && !io.readFails)
  }

  lemma SaveServed(s: Store, u: Universe, b: ChainBlock, lost: bool)
    requires RowsServed(s, u) && BlocksConsistent(u) && Served(u, b)
    ensures RowsServed(SaveBlock(s, b, lost), u)
  {}

  /** Whatever happens, every block row is a block the gateway served. */
  lemma SyncServed(s: Store, u: Universe, f: Fetch, h: int, io: SyncIO)
    requires RowsServed(s, u) && BlocksConsistent(u) && Answered(u, f, h, io)
    ensures RowsServed(Outcome(s, f, h, io).store, u)
  {
    OutcomeIs(s, f, h, io);
    DropServed(s, u, h, io.drop);
    if !io.readFails {
      SaveServed(Drop(s, h, io.drop).store, u, f.block, io.blockLost);
    }
  }

  lemma SaveKeeps(s: Store, u: Universe, b: ChainBlock, lost: bool)
    requires StoreInv(s, u) && BlocksConsistent(u) && Served(u, b)
    requires At(s, b.number).None? || At(s, b.number) == Some(b.hash)
    ensures var s' := SaveBlock(s, b, lost);
      StoreInv(s', u) && (At(s', b.number) == Some(b.hash) || (lost && At(s', b.number).None?))
  {
    PutKeeps(s, u, b);
  }

  lemma SaveAt(s: Store, u: Universe, b: ChainBlock, lost: bool, j: int)
    requires StoreInv(s, u) && BlocksConsistent(u) && Served(u, b) && j != b.number
    ensures At(SaveBlock(s, b, lost), j) == At(s, j)
  {
    PutAt(s, u, b, j);
  }

  lemma SameBlocks(s: Store, s': Store, h: int)
    requires Unique(s) && s.blocks == s'.blocks
    ensures At(s', h) == At(s, h)
  {
    assert forall k :: IsNormal(s, k, h) <==> IsNormal(s', k, h);
    AtSame(s, s', h);
  }

  lemma WriteAllKeeps(s: Store, u: Universe, b: ChainBlock, io: SyncIO, j: int)
    requires StoreInv(s, u)
    ensures StoreInv(WriteAll(s, b, io).store, u)
    ensures At(WriteAll(s, b, io).store, j) == At(s, j)
  {
    PutTxsKeeps(s, u, b, Saved(s, io.reached, io.lost));
    SameBlocks(s, WriteAll(s, b, io).store, j);
  }

  /** After DropBlok the height is empty or already holds the block about to be written. */
  lemma DropReady(s: Store, u: Universe, f: Fetch, h: int, io: DropIO)
    requires StoreInv(s, u) && BlocksConsistent(u) && FetchServed(u, f, h) && !io.blockLost && Drop(s, h, io).ok
    ensures var s1 := Drop(s, h, io).store;
      StoreInv(s1, u) && (At(s1, h).None? || At(s1, h) == Some(f.block.hash))
  {
    DropKeeps(s, u, h, io);
    DropAt(s, u, h, io, h);
    if h <= 1 { FinalRow(s, u, f.block); }
  }

  lemma WriteRows(s: Store, u: Universe, f: Fetch, h: int, io: SyncIO)
    requires StoreInv(s, u) && BlocksConsistent(u) && FetchServed(u, f, h) && !io.readFails
    requires !ParentDiffers(s, f, h) && (At(s, h).None? || At(s, h) == Some(f.block.hash))
    ensures var r := WriteAll(SaveBlock(s, f.block, io.blockLost), f.block, io);
      && StoreInv(r.store, u)
      && (At(r.store, h) == Some(f.block.hash) || (io.blockLost && At(r.store, h).None?))
  {
    SaveKeeps(s, u, f.block, io.blockLost);
    WriteAllKeeps(SaveBlock(s, f.block, io.blockLost), u, f.block, io, h);
  }

  /** What one SyncOneBlock whose DropBlok is saved does to the NORMAL rows, whatever else fails. */
  lemma SyncRows(s: Store, u: Universe, f: Fetch, h: int, io: SyncIO)
    requires StoreInv(s, u) && BlocksConsistent(u) && Answered(u, f, h, io) && h >= 0 && !io.drop.blockLost
    ensures StoreInv(Outcome(s, f, h, io).store, u)
    ensures RowsMoved(s, Outcome(s, f, h, io), f, h, io)
  {
    OutcomeIs(s, f, h, io);
    var r := SyncOneBlock(s, f, h, io);
    var s1 := Drop(s, h, io.drop).store;
    DropKeeps(s, u, h, io.drop);
    DropAt(s, u, h, io.drop, h - 1);
    if Writes(s, f, h, io) {
      assert StoreInv(r.store, u) && RowsMoved(s, r, f, h, io) by {
        DropReady(s, u, f, h, io.drop);
        WriteRows(s1, u, f, h, io);
      }
    } else {
      assert RowsMoved(s, r, f, h, io) by { DropAt(s, u, h, io.drop, h); }
    }
  }

  /** SyncOneBlock leaves the NORMAL row of every other height alone. */
  lemma SyncElsewhere(s: Store, u: Universe, f: Fetch, h: int, io: SyncIO, j: int)
    requires StoreInv(s, u) && BlocksConsistent(u) && Answered(u, f, h, io) && h >= 0 && j != h && !io.drop.blockLost
    ensures At(Outcome(s, f, h, io).store, j) == At(s, j)
  {
    OutcomeIs(s, f, h, io);
    var r := SyncOneBlock(s, f, h, io);
    var s1 := Drop(s, h, io.drop).store;
    assert At(s1, j) == At(s, j) by { DropAt(s, u, h, io.drop, j); }
    if Writes(s, f, h, io) {
      DropReady(s, u, f, h, io.drop);
      SaveKeeps(s1, u, f.block, io.blockLost);
      SaveAt(s1, u, f.block, io.blockLost, j);
      WriteAllKeeps(SaveBlock(s1, f.block, io.blockLost), u, f.block, io, j);
    }
  }

  lemma SyncOthers(s: Store, u: Universe, f: Fetch, h: int, io: SyncIO)
    requires StoreInv(s, u) && BlocksConsistent(u) && Answered(u, f, h, io) && h >= 0 && !io.drop.blockLost
    ensures forall j :: j != h ==> At(Outcome(s, f, h, io).store, j) == At(s, j)
  {
    forall j | j != h ensures At(Outcome(s, f, h, io).store, j) == At(s, j) {
      SyncElsewhere(s, u, f, h, io, j);
    }
  }

  /** No SyncOneBlock ever stores a fee that does not parse, or an unknown type. */
  lemma SyncColumns(s: Store, f: Fetch, h: int, io: SyncIO)
    requires TxColumnsSound(s)
    ensures TxColumnsSound(Outcome(s, f, h, io).store)
  {
    OutcomeIs(s, f, h, io);
    var r := SyncOneBlock(s, f, h, io);
    DropColumns(s, h, io.drop);
    if Writes(s, f, h, io) {
      var s2 := SaveBlock(Drop(s, h, io.drop).store, f.block, io.blockLost);
      assert TxColumnsSound(s2);
      assert TxColumnsSound(r.store) by { PutTxsColumns(s2, f.block, Saved(s2, io.reached, io.lost)); }
    }
  }

  /*--- The loop of StartSyncLastBlock ---*/

  /** `target` is the height the inner loop is climbing to, if it is running. */
  datatype State = State(cursor: int, target: Option<int>, store: Store)

  datatype Step =
    | PollFailed
    | Poll(height: int, drop: DropIO)
    | Sync(fetch: Fetch, io: SyncIO)
    | Panic
    | Restart

  /** `m` is what `SELECT MAX(F_block)` over the NORMAL rows yields, with NULL read as 0. */
  ghost predicate IsMax(s: Store, m: int) {
    && (m == 0 || At(s, m).Some?)
    && (forall h :: At(s, h).Some? ==> h <= m)
  }

  ghost function MaxHeight(s: Store): (m: int)
    ensures (exists n :: IsMax(s, n)) ==> IsMax(s, m)
  {
    if exists n :: IsMax(s, n) then var n :| IsMax(s, n); n else 0
  }

  function Stride(v: Verdict): int {
    match v
    case Done => 1
    case WalkBack => -1
    case Stopped => 0
  }

  /** The inner loop ends when the cursor has reached the target, or on a panic. */
  predicate Ends(st: State, v: Verdict, panics: bool) {
    (v == Done && st.target == Some(st.cursor + 1)) || (v == Stopped && panics)
  }

  /** What the inner loop does with the verdict of a SyncOneBlock. */
  function Moved(st: State, r: Synced, panics: bool): State {
    State(st.cursor + Stride(r.verdict), if Ends(st, r.verdict, panics) then None else st.target, r.store)
  }

  /** One pass of the inner loop. */
  ghost function Climbed(st: State, f: Fetch, io: SyncIO): State {
    Moved(st, Outcome(st.store, f, st.cursor + 1, io), io.panics)
  }

  /** The shrink branch: decrement first, then drop the new cursor height. */
  ghost function Shrunk(st: State, drop: DropIO): State {
    State(st.cursor - 1, st.target, Drop(st.store, st.cursor - 1, drop).store)
  }

  /** The head of the outer loop, once the gateway has reported `height`. */
  ghost function Polled(st: State, height: int, drop: DropIO): State {
    if height < st.cursor then Shrunk(st, drop)
    else State(st.cursor, if height > st.cursor then Some(height) else None, st.store)
  }

  ghost function Restarted(st: State): State {
    State(MaxHeight(st.store) - 1, None, st.store)
  }

  ghost function Next(st: State, step: Step): State {
    match step
    case PollFailed => st
    case Poll(height, drop) => Polled(st, height, drop)
    case Sync(f, io) => Climbed(st, f, io)
    case Panic => st.(target := None)
    case Restart => Restarted(st)
  }

  /** Which steps the loop can take, and what the gateway may answer. */
  ghost predicate Enabled(st: State, step: Step, u: Universe) {
    match step
    case PollFailed => st.target.None?
    case Poll(height, drop) => st.target.None? && height >= 0
    case Sync(f, io) => st.target.Some? && Answered(u, f, st.cursor + 1, io)
    case Panic => true
    case Restart => true
  }

  ghost function Run(st: State, trace: seq<Step>): State
    decreases |trace|
  {
    if trace == [] then st else Run(Next(st, trace[0]), trace[1..])
  }

  ghost predicate ValidRun(st: State, trace: seq<Step>, u: Universe)
    decreases |trace|
  {
    trace == [] || (Enabled(st, trace[0], u) && ValidRun(Next(st, trace[0]), trace[1..], u))
  }

  /** The process starting on empty tables. */
  const Fresh := State(-1, None, Store(map[], map[]))

  /*--- What single steps may be assumed to keep to ---*/

  /** Block and parent were read from one chain view. */
  predicate SeesOneChain(step: Step) {
    step.Sync? && !step.io.readFails ==> OneView(step.fetch)
  }

  /** The COMMIT that retires the old block before a new one is written is not lost. */
  predicate DropSaved(step: Step) {
    step.Sync? ==> !step.io.drop.blockLost
  }

  /*--- Invariants ---*/

  /** The NORMAL rows at `h` and `h - 1`, when both exist, are linked by parent hash. */
  ghost predicate Linked(s: Store, h: int) {
    At(s, h).Some? && At(s, h - 1).Some? ==> s.blocks[At(s, h).value].parentHash == At(s, h - 1).value
  }

  /** Below the cursor every height has a NORMAL row, linked up to and including the cursor. */
  ghost predicate Prefix(s: Store, c: int) {
    && (forall h :: 0 <= h < c ==> At(s, h).Some?)
    && (forall h :: 1 <= h <= c ==> Linked(s, h))
  }

  /** What no failure whatsoever can break. */
  ghost predicate Loose(st: State, u: Universe) {
    && RowsServed(st.store, u)
    && st.cursor >= -1
    && (st.target.Some? ==> st.target.value > st.cursor)
  }

  ghost predicate Base(st: State, u: Universe) {
    Loose(st, u) && Unique(st.store)
  }

  ghost predicate Safe(st: State, u: Universe) {
    Base(st, u) && Prefix(st.store, st.cursor)
  }

  /** No NORMAL row lies above `c + 1`. */
  ghost predicate NoStale(s: Store, c: int) {
    forall h :: h > c + 1 ==> At(s, h).None?
  }

  /** Linking carries over when the rows at both heights are the same. */
  lemma LinkedSame(s: Store, s': Store, u: Universe, h: int)
    requires StoreInv(s, u) && StoreInv(s', u)
    requires At(s', h) == At(s, h) && At(s', h - 1) == At(s, h - 1)
    requires Linked(s, h)
    ensures Linked(s', h)
  {}

  lemma PrefixSame(s: Store, s': Store, u: Universe, c: int)
    requires StoreInv(s, u) && StoreInv(s', u) && Prefix(s, c)
    requires forall h :: h <= c ==> At(s', h) == At(s, h)
    ensures Prefix(s', c)
  {
    forall h | 1 <= h <= c ensures Linked(s', h) {
      LinkedSame(s, s', u, h);
    }
  }

  /** A block written over a matching parent is linked to it. */
  lemma LinkedByFetch(s: Store, u: Universe, f: Fetch, h: int)
    requires StoreInv(s, u) && ValidFetch(u, f, h) && h > 0
    requires At(s, h) == Some(f.block.hash) && At(s, h - 1) == Some(f.parent.hash)
    ensures Linked(s, h)
  {}

  lemma PrefixLess(s: Store, c: int)
    requires Prefix(s, c)
    ensures Prefix(s, c - 1)
  {}

  /*--- Polls ---*/

  lemma PollLoose(st: State, height: int, drop: DropIO, u: Universe)
    requires Loose(st, u) && st.target.None? && height >= 0
    ensures Loose(Polled(st, height, drop), u)
  {
    DropServed(st.store, u, st.cursor - 1, drop);
  }

  lemma PollBase(st: State, height: int, drop: DropIO, u: Universe)
    requires Base(st, u) && st.target.None? && height >= 0
    ensures Base(Polled(st, height, drop), u)
  {
    PollLoose(st, height, drop, u);
    assert Unique(Drop(st.store, st.cursor - 1, drop).store) by { DropKeeps(st.store, u, st.cursor - 1, drop); }
  }

  /** Dropping the top of the prefix leaves the prefix below it. */
  lemma DropPrefix(s: Store, u: Universe, c: int, io: DropIO)
    requires StoreInv(s, u) && Prefix(s, c + 1)
    ensures Prefix(Drop(s, c, io).store, c)
  {
    var s' := Drop(s, c, io).store;
    DropKeeps(s, u, c, io);
    DropOthers(s, u, c, io);
    PrefixSame(s, s', u, c - 1);
    if c >= 1 && At(s', c).Some? {
      LinkedSame(s, s', u, c);
    }
  }

  lemma PollSafe(st: State, height: int, drop: DropIO, u: Universe)
    requires Safe(st, u) && st.target.None? && height >= 0
    ensures Safe(Polled(st, height, drop), u)
  {
    PollBase(st, height, drop, u);
    DropPrefix(st.store, u, st.cursor - 1, drop);
  }

  /*--- Syncs ---*/

  /** SyncOneBlock walks back only from a height above 0. */
  lemma WalkBackAboveZero(s: Store, f: Fetch, h: int, io: SyncIO)
    ensures Outcome(s, f, h, io).verdict == WalkBack ==> h != 0
  {
    OutcomeIs(s, f, h, io);
  }

  lemma MovedInBounds(st: State, r: Synced, panics: bool)
    requires st.cursor >= -1 && st.target.Some? && st.target.value > st.cursor
    requires r.verdict == WalkBack ==> st.cursor + 1 != 0
    ensures var st' := Moved(st, r, panics);
      st'.store == r.store && st'.cursor >= -1 && (st'.target.Some? ==> st'.target.value > st'.cursor)
  {}

  lemma SyncLoose(st: State, f: Fetch, io: SyncIO, u: Universe)
    requires Loose(st, u) && BlocksConsistent(u) && st.target.Some? && Answered(u, f, st.cursor + 1, io)
    ensures Loose(Climbed(st, f, io), u)
  {
    var r := Outcome(st.store, f, st.cursor + 1, io);
    assert Climbed(st, f, io) == Moved(st, r, io.panics);
    assert RowsServed(r.store, u) by { SyncServed(st.store, u, f, st.cursor + 1, io); }
    WalkBackAboveZero(st.store, f, st.cursor + 1, io);
    MovedInBounds(st, r, io.panics);
  }

  lemma SyncBase(st: State, f: Fetch, io: SyncIO, u: Universe)
    requires Base(st, u) && BlocksConsistent(u) && st.target.Some? && Answered(u, f, st.cursor + 1, io)
    requires !io.drop.blockLost
    ensures Base(Climbed(st, f, io), u)
  {
    var st' := Climbed(st, f, io);
    assert st'.store == Outcome(st.store, f, st.cursor + 1, io).store;
    assert Loose(st', u) by { SyncLoose(st, f, io, u); }
    assert Unique(st'.store) by { SyncRows(st.store, u, f, st.cursor + 1, io); }
  }

  /** A finished SyncOneBlock extends the linked prefix by one height. */
  lemma PrefixGrows(s: Store, s': Store, u: Universe, f: Fetch, h: int)
    requires StoreInv(s, u) && StoreInv(s', u) && Prefix(s, h - 1) && ValidFetch(u, f, h) && h >= 0
    requires forall j :: j < h ==> At(s', j) == At(s, j)
    requires !ParentDiffers(s, f, h) && (At(s', h) == Some(f.block.hash) || At(s', h).None?)
    ensures Prefix(s', h)
  {
    PrefixSame(s, s', u, h - 1);
    if h > 0 && At(s', h).Some? {
      LinkedByFetch(s', u, f, h);
    }
  }

  lemma SyncPrefix(s: Store, u: Universe, f: Fetch, h: int, io: SyncIO)
    requires StoreInv(s, u) && BlocksConsistent(u) && Answered(u, f, h, io) && (io.readFails || OneView(f))
    requires h >= 0 && Prefix(s, h - 1) && !io.drop.blockLost
    ensures var r := Outcome(s, f, h, io); Prefix(r.store, h - 1) && (r.verdict == Done ==> Prefix(r.store, h))
  {
    var r := Outcome(s, f, h, io);
    SyncRows(s, u, f, h, io);
    assert forall j :: j < h ==> At(r.store, j) == At(s, j) by { SyncOthers(s, u, f, h, io); }
    PrefixSame(s, r.store, u, h - 1);
    if r.verdict == Done {
      PrefixGrows(s, r.store, u, f, h);
    }
  }

  lemma PrefixMoved(r: Synced, c: int)
    requires Prefix(r.store, c) && (r.verdict == Done ==> Prefix(r.store, c + 1))
    ensures Prefix(r.store, c + Stride(r.verdict))
  {
    if r.verdict == WalkBack {
      PrefixLess(r.store, c);
    }
  }

  lemma SyncSafe(st: State, f: Fetch, io: SyncIO, u: Universe)
    requires Safe(st, u) && BlocksConsistent(u) && st.target.Some? && Answered(u, f, st.cursor + 1, io)
    requires !io.drop.blockLost && (io.readFails || OneView(f))
    ensures Safe(Climbed(st, f, io), u)
  {
    var st' := Climbed(st, f, io);
    var r := Outcome(st.store, f, st.cursor + 1, io);
    assert st'.store == r.store && st'.cursor == st.cursor + Stride(r.verdict);
    assert Base(st', u) by { SyncBase(st, f, io, u); }
    assert Prefix(r.store, st.cursor + Stride(r.verdict)) by {
      SyncPrefix(st.store, u, f, st.cursor + 1, io);
      PrefixMoved(r, st.cursor);
    }
  }
}
