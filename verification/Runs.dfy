/**
 Safety of the follower over every run: what holds after any sequence of polls,
 syncs, failures, panics and process restarts.
 */
module Runs {
  import opened Common
  import opened Chain
  import opened Tables
  import opened Follower
  import opened Restarts
  import Decimal

  /** A run is extended at its end by one more step. */
  lemma {:induction false} RunSnoc(st: State, trace: seq<Step>, step: Step, u: Universe)
    requires ValidRun(st, trace, u) && Enabled(Run(st, trace), step, u)
    ensures ValidRun(st, trace + [step], u) && Run(st, trace + [step]) == Next(Run(st, trace), step)
    decreases |trace|
  {
    if trace == [] {
      assert trace + [step] == [step];
      assert [step][1..] == [];
    } else {
      RunSnoc(Next(st, trace[0]), trace[1..], step, u);
      assert (trace + [step])[1..] == trace[1..] + [step];
    }
  }

  /*--- What no failure can break ---*/

  lemma ColumnsSync(st: State, f: Fetch, io: SyncIO)
    requires TxColumnsSound(st.store)
    ensures TxColumnsSound(Climbed(st, f, io).store)
  {
    assert Climbed(st, f, io).store == Outcome(st.store, f, st.cursor + 1, io).store;
    SyncColumns(st.store, f, st.cursor + 1, io);
  }

  /** In every run whatsoever, every stored fee parses and every stored type is known. */
  lemma {:induction false} ColumnsRun(st: State, trace: seq<Step>)
    requires TxColumnsSound(st.store)
    ensures TxColumnsSound(Run(st, trace).store)
    decreases |trace|
  {
    if trace != [] {
      var step := trace[0];
      if step.Poll? {
        DropColumns(st.store, st.cursor - 1, step.drop);
      } else if step.Sync? {
        ColumnsSync(st, step.fetch, step.io);
      }
      ColumnsRun(Next(st, step), trace[1..]);
    }
  }

  /**
   In every run whatsoever, every F_tx_fee ever stored parses, so DropBlok never
   takes its early exit, and every stored type is 0, 3 or 4.
   */
  lemma ColumnsAlways(trace: seq<Step>, t: Hash)
    requires t in Run(Fresh, trace).store.txs
    ensures var data := Run(Fresh, trace).store.txs[t].data;
      Decimal.Parse(data.fee).Some? && data.kind in {TX_UNDEFINED, TX_MORTGAGE, TX_REDEEM}
  {
    ColumnsRun(Fresh, trace);
    AmountParses(Run(Fresh, trace).store.txs[t].data.fee);
  }

  /*--- Cursor bounds ---*/

  function Larger(a: int, b: int): int {
    if a > b then a else b
  }

  /** The larger of `g` and the greatest height the gateway reported in the run. */
  function Greatest(g: int, trace: seq<Step>): int
    decreases |trace|
  {
    if trace == [] then g
    else Greatest(if trace[0].Poll? then Larger(g, trace[0].height) else g, trace[1..])
  }

  /** No NORMAL row is higher than `m`. */
  ghost predicate RowsUpTo(s: Store, m: int) {
    forall k | k in s.blocks && s.blocks[k].status == Normal :: s.blocks[k].height <= m
  }

  /** Cursor and target are at most `g` and the rows at most one higher, as on tables a process starts from. */
  ghost predicate Below(st: State, g: int) {
    && st.cursor <= g
    && (st.target.Some? ==> st.target.value <= g)
    && RowsUpTo(st.store, g + 1)
  }

  lemma SaveUpTo(s: Store, u: Universe, b: ChainBlock, lost: bool, m: int)
    requires RowsServed(s, u) && Served(u, b) && RowsUpTo(s, m) && b.number <= m
    ensures RowsUpTo(SaveBlock(s, b, lost), m)
  {}

  lemma DropUpTo(s: Store, h: int, io: DropIO, m: int)
    requires RowsUpTo(s, m)
    ensures RowsUpTo(Drop(s, h, io).store, m)
  {}

  lemma SyncUpTo(s: Store, u: Universe, f: Fetch, h: int, io: SyncIO, m: int)
    requires RowsServed(s, u) && Answered(u, f, h, io) && RowsUpTo(s, m) && h <= m
    ensures RowsUpTo(Outcome(s, f, h, io).store, m)
  {
    OutcomeIs(s, f, h, io);
    DropUpTo(s, h, io.drop, m);
    DropServed(s, u, h, io.drop);
    if Writes(s, f, h, io) {
      SaveUpTo(Drop(s, h, io.drop).store, u, f.block, io.blockLost, m);
    }
  }

  lemma BelowSync(st: State, f: Fetch, io: SyncIO, u: Universe, g: int)
    requires Loose(st, u) && st.target.Some? && Answered(u, f, st.cursor + 1, io) && Below(st, g)
    ensures Below(Climbed(st, f, io), g)
  {
    assert Climbed(st, f, io).store == Outcome(st.store, f, st.cursor + 1, io).store;
    SyncUpTo(st.store, u, f, st.cursor + 1, io, g + 1);
  }

  lemma BelowRestart(st: State, u: Universe, g: int)
    requires Loose(st, u) && BlocksConsistent(u) && Below(st, g) && g >= -1
    ensures Below(Restarted(st), g)
  {
    MaxExists(st.store, u);
    assert forall h :: At(st.store, h).Some? ==> h <= g + 1;
  }

  lemma BelowStep(st: State, step: Step, u: Universe, g: int)
    requires Loose(st, u) && BlocksConsistent(u) && Enabled(st, step, u) && Below(st, g) && g >= -1
    ensures Below(Next(st, step), if step.Poll? then Larger(g, step.height) else g)
  {
    if step.Poll? {
      DropUpTo(st.store, st.cursor - 1, step.drop, g + 1);
    } else if step.Sync? {
      BelowSync(st, step.fetch, step.io, u, g);
    } else if step.Restart? {
      BelowRestart(st, u, g);
    }
  }

  /**
   Cursor bounds, in every run whatsoever, across walk-backs, shrinks, panics
   and restarts: from a process start on any tables the cursor stays between -1
   and the larger of its start value and the greatest height reported.
   */
  lemma {:induction false} CursorBounds(st: State, trace: seq<Step>, u: Universe, g: int)
    requires Loose(st, u) && BlocksConsistent(u) && ValidRun(st, trace, u) && Below(st, g) && g >= -1
    ensures -1 <= Run(st, trace).cursor <= Greatest(g, trace)
    ensures Below(Run(st, trace), Greatest(g, trace))
    decreases |trace|
  {
    if trace != [] {
      var step := trace[0];
      if step.Poll? {
        PollLoose(st, step.height, step.drop, u);
      } else if step.Sync? {
        SyncLoose(st, step.fetch, step.io, u);
      } else if step.Restart? {
        RestartLoose(st, u);
      }
      BelowStep(st, step, u, g);
      CursorBounds(Next(st, step), trace[1..], u, if step.Poll? then Larger(g, step.height) else g);
    }
  }

  /** The state a process starts in, on whatever tables it finds, is within its own cursor. */
  lemma StartBelow(s: Store, u: Universe)
    requires RowsServed(s, u) && BlocksConsistent(u)
    ensures var start := Restarted(State(-1, None, s)); Loose(start, u) && Below(start, start.cursor) && start.cursor >= -1
  {
    MaxExists(s, u);
    forall k | k in s.blocks && s.blocks[k].status == Normal ensures s.blocks[k].height <= MaxHeight(s) {
      assert IsNormal(s, k, s.blocks[k].height);
      assert At(s, s.blocks[k].height).Some?;
    }
  }

  /*--- Uniqueness ---*/

  lemma {:induction false} BaseRun(st: State, trace: seq<Step>, u: Universe)
    requires Base(st, u) && BlocksConsistent(u) && ValidRun(st, trace, u)
    requires forall step | step in trace :: DropSaved(step)
    ensures Base(Run(st, trace), u)
    decreases |trace|
  {
    if trace != [] {
      var step := trace[0];
      assert DropSaved(step);
      if step.Poll? {
        PollBase(st, step.height, step.drop, u);
      } else if step.Sync? {
        SyncBase(st, step.fetch, step.io, u);
      } else if step.Restart? {
        RestartLoose(st, u);
      }
      BaseRun(Next(st, step), trace[1..], u);
    }
  }

  /**
   In every reachable state, after reorganisations seen half-way, failures,
   shrinks, panics and restarts, each height has at most one NORMAL block row
   and the cursor is at least -1, as long as no COMMIT retiring a block before
   another is written over it is lost.
   */
  lemma UniquenessAlways(trace: seq<Step>, u: Universe)
    requires BlocksConsistent(u) && ValidRun(Fresh, trace, u)
    requires forall step | step in trace :: DropSaved(step)
    ensures var st := Run(Fresh, trace); Unique(st.store) && st.cursor >= -1
  {
    BaseRun(Fresh, trace, u);
  }

  /*--- Prefix safety ---*/

  /** Every restart of the run happens when the two queries come out right. */
  ghost predicate CheckedRestarts(st: State, trace: seq<Step>)
    decreases |trace|
  {
    trace == [] || (
      && (trace[0].Restart? ==> Restartable(st))
      && CheckedRestarts(Next(st, trace[0]), trace[1..]))
  }

  lemma {:induction false} SafeRun(st: State, trace: seq<Step>, u: Universe)
    requires Safe(st, u) && BlocksConsistent(u) && ValidRun(st, trace, u) && CheckedRestarts(st, trace)
    requires forall step | step in trace :: DropSaved(step) && SeesOneChain(step)
    ensures Safe(Run(st, trace), u)
    decreases |trace|
  {
    if trace != [] {
      var step := trace[0];
      assert DropSaved(step) && SeesOneChain(step);
      if step.Poll? {
        PollSafe(st, step.height, step.drop, u);
      } else if step.Sync? {
        SyncSafe(st, step.fetch, step.io, u);
      } else if step.Restart? {
        RestartSafeIff(st, u);
      }
      SafeRun(Next(st, step), trace[1..], u);
    }
  }

  lemma {:induction false} NoRestartIsChecked(st: State, trace: seq<Step>)
    requires Restart !in trace
    ensures CheckedRestarts(st, trace)
    decreases |trace|
  {
    if trace != [] {
      assert forall step | step in trace[1..] :: step in trace;
      NoRestartIsChecked(Next(st, trace[0]), trace[1..]);
    }
  }

  /**
   Prefix safety. From empty tables and through any growth, shrink, reorg, RPC
   or database error, lost revival, recovered panic and checked restart: heights
   0..cursor-1 all have a NORMAL row, consecutive rows are hash-linked, and the
   row at the cursor is absent or linked to the one below. A run without
   restarts is one whose restarts are all checked.
   */
  lemma PrefixSafety(trace: seq<Step>, u: Universe)
    requires BlocksConsistent(u) && ValidRun(Fresh, trace, u)
    requires Restart !in trace || CheckedRestarts(Fresh, trace)
    requires forall step | step in trace :: DropSaved(step) && SeesOneChain(step)
    ensures var st := Run(Fresh, trace);
      && (forall h :: 0 <= h < st.cursor ==> At(st.store, h).Some?)
      && (forall h :: 1 <= h <= st.cursor ==> Linked(st.store, h))
  {
    if Restart !in trace { NoRestartIsChecked(Fresh, trace); }
    SafeRun(Fresh, trace, u);
  }

  /*--- Crash-restart safety ---*/

  /** The gateway never reports a height below the cursor. */
  ghost predicate ShrinkFree(st: State, trace: seq<Step>)
    decreases |trace|
  {
    trace == [] || (
      && (trace[0].Poll? ==> trace[0].height >= st.cursor)
      && ShrinkFree(Next(st, trace[0]), trace[1..]))
  }

  /** The NORMAL rows are exactly one hash-linked chain 0..m. */
  ghost predicate Tower(s: Store, m: int) {
    && (forall h :: At(s, h).Some? <==> 0 <= h <= m)
    && (forall h :: Linked(s, h))
  }

  /** The tower ends at the cursor, one above it, or one below it. */
  ghost predicate InReach(s: Store, c: int) {
    Tower(s, c) || Tower(s, c + 1) || Tower(s, c - 1)
  }

  /** How high the tower is. */
  ghost function TowerHeight(s: Store, c: int): int {
    if Tower(s, c) then c else if Tower(s, c + 1) then c + 1 else c - 1
  }

  ghost predicate Upright(st: State, u: Universe) {
    Safe(st, u) && InReach(st.store, st.cursor)
  }

  lemma UprightIsClean(st: State, u: Universe)
    requires Upright(st, u)
    ensures NoStale(st.store, st.cursor)
  {}

  lemma MaxOfTower(s: Store, u: Universe, m: int)
    requires RowsServed(s, u) && BlocksConsistent(u) && Tower(s, m)
    ensures MaxHeight(s) == if m >= 0 then m else 0
  {
    MaxExists(s, u);
    if m >= 0 { MaxIs(s, u, m); }
  }

  lemma EmptyTower(s: Store, m: int, n: int)
    requires Tower(s, m) && m < 0 && n < 0
    ensures Tower(s, n)
  {}

  lemma UprightRestart(st: State, u: Universe)
    requires Upright(st, u) && BlocksConsistent(u)
    ensures Upright(Restarted(st), u)
    ensures Restartable(st)
  {
    var st' := Restarted(st);
    var m := TowerHeight(st.store, st.cursor);
    UprightIsClean(st, u);
    NoStaleRestartable(st, u);
    assert Safe(st', u) by { RestartSafeIff(st, u); }
    MaxOfTower(st.store, u, m);
    if m < 0 { EmptyTower(st.store, m, -1); }
  }

  /** Every height but `h` is untouched, and what is at `h` is linked: a tower of height h-1 or h stays one. */
  lemma TowerStep(s: Store, s': Store, u: Universe, h: int)
    requires StoreInv(s, u) && StoreInv(s', u) && (Tower(s, h - 1) || Tower(s, h)) && h >= 0
    requires forall j :: j != h ==> At(s', j) == At(s, j)
    requires Linked(s', h)
    ensures Tower(s', if At(s', h).Some? then h else h - 1)
  {
    forall j ensures Linked(s', j) {
      if j != h && j != h + 1 { LinkedSame(s, s', u, j); }
    }
  }

  lemma BelowZero(s: Store, u: Universe, h: int)
    requires RowsServed(s, u) && BlocksConsistent(u) && h < 0
    ensures At(s, h).None?
  {}

  /** A row that is unchanged, gone, or freshly written over its parent is linked to the row below. */
  lemma LinkedAfter(s: Store, r: Synced, u: Universe, f: Fetch, h: int, io: SyncIO)
    requires StoreInv(s, u) && StoreInv(r.store, u) && BlocksConsistent(u)
    requires Answered(u, f, h, io) && (io.readFails || OneView(f))
    requires h >= 0 && Linked(s, h) && At(r.store, h - 1) == At(s, h - 1) && RowsMoved(s, r, f, h, io)
    ensures Linked(r.store, h)
  {
    if h == 0 {
      BelowZero(r.store, u, h - 1);
    } else if At(r.store, h) == At(s, h) {
      LinkedSame(s, r.store, u, h);
    } else if At(r.store, h).Some? {
      LinkedByFetch(r.store, u, f, h);
    }
  }

  lemma SyncTower(s: Store, u: Universe, f: Fetch, h: int, io: SyncIO)
    requires StoreInv(s, u) && BlocksConsistent(u) && Answered(u, f, h, io) && (io.readFails || OneView(f))
    requires h >= 0 && !io.drop.blockLost && (Tower(s, h - 1) || Tower(s, h))
    ensures var s' := Outcome(s, f, h, io).store; Tower(s', if At(s', h).Some? then h else h - 1)
  {
    var r := Outcome(s, f, h, io);
    SyncRows(s, u, f, h, io);
    assert forall j :: j != h ==> At(r.store, j) == At(s, j) by { SyncOthers(s, u, f, h, io); }
    assert Linked(r.store, h) by { LinkedAfter(s, r, u, f, h, io); }
    TowerStep(s, r.store, u, h);
  }

  /** SyncOneBlock walks back only from a height it has just cleared. */
  lemma WalkBackClears(s: Store, u: Universe, f: Fetch, h: int, io: SyncIO)
    requires StoreInv(s, u) && BlocksConsistent(u) && Answered(u, f, h, io) && h >= 0 && !io.drop.blockLost
    requires Tower(s, h - 1) || Tower(s, h)
    ensures Outcome(s, f, h, io).verdict == WalkBack ==> At(Outcome(s, f, h, io).store, h).None?
  {
    OutcomeIs(s, f, h, io);
    var r := SyncOneBlock(s, f, h, io);
    DropAt(s, u, h, io.drop, h);
    if h == 1 && r.verdict == WalkBack {
      FinalRow(s, u, f.parent);
    }
  }

  /** A tower kept at the synced height stays within reach of the moved cursor. */
  lemma TowerMoved(r: Synced, c: int)
    requires Tower(r.store, if At(r.store, c + 1).Some? then c + 1 else c)
    requires r.verdict == WalkBack ==> At(r.store, c + 1).None?
    ensures InReach(r.store, c + Stride(r.verdict))
  {}

  lemma SyncReach(s: Store, u: Universe, f: Fetch, c: int, io: SyncIO)
    requires StoreInv(s, u) && BlocksConsistent(u) && Answered(u, f, c + 1, io) && (io.readFails || OneView(f))
    requires c >= -1 && !io.drop.blockLost && (Tower(s, c) || Tower(s, c + 1))
    ensures var r := Outcome(s, f, c + 1, io); InReach(r.store, c + Stride(r.verdict))
  {
    var r := Outcome(s, f, c + 1, io);
    assert Tower(r.store, if At(r.store, c + 1).Some? then c + 1 else c) by { SyncTower(s, u, f, c + 1, io); }
    assert r.verdict == WalkBack ==> At(r.store, c + 1).None? by { WalkBackClears(s, u, f, c + 1, io); }
    TowerMoved(r, c);
  }

  /** With no row at the cursor there is no parent: nothing is written, and at most the cursor steps back. */
  lemma NoParentNoWrite(s: Store, f: Fetch, c: int, io: SyncIO)
    requires c >= 0 && Tower(s, c - 1)
    ensures Outcome(s, f, c + 1, io).store == s && Outcome(s, f, c + 1, io).verdict != Done
  {
    OutcomeIs(s, f, c + 1, io);
    assert At(s, c + 1).None? && At(s, c).None?;
  }

  lemma UprightReach(s: Store, u: Universe, f: Fetch, c: int, io: SyncIO)
    requires StoreInv(s, u) && BlocksConsistent(u) && Answered(u, f, c + 1, io) && (io.readFails || OneView(f))
    requires c >= -1 && !io.drop.blockLost && InReach(s, c)
    ensures var r := Outcome(s, f, c + 1, io); InReach(r.store, c + Stride(r.verdict))
  {
    if Tower(s, c) || Tower(s, c + 1) {
      SyncReach(s, u, f, c, io);
    } else if c == -1 {
      EmptyTower(s, c - 1, c);
    } else {
      NoParentNoWrite(s, f, c, io);
    }
  }

  lemma UprightSync(st: State, f: Fetch, io: SyncIO, u: Universe)
    requires Upright(st, u) && BlocksConsistent(u) && st.target.Some? && Answered(u, f, st.cursor + 1, io)
    requires !io.drop.blockLost && (io.readFails || OneView(f))
    ensures Upright(Climbed(st, f, io), u)
  {
    var st' := Climbed(st, f, io);
    var r := Outcome(st.store, f, st.cursor + 1, io);
    assert st'.store == r.store && st'.cursor == st.cursor + Stride(r.verdict);
    assert Safe(st', u) by { SyncSafe(st, f, io, u); }
    assert InReach(r.store, st.cursor + Stride(r.verdict)) by { UprightReach(st.store, u, f, st.cursor, io); }
  }

  lemma UprightStep(st: State, step: Step, u: Universe)
    requires Upright(st, u) && BlocksConsistent(u) && Enabled(st, step, u) && DropSaved(step) && SeesOneChain(step)
    requires step.Poll? ==> step.height >= st.cursor
    ensures Upright(Next(st, step), u)
  {
    if step.Sync? {
      UprightSync(st, step.fetch, step.io, u);
    } else if step.Restart? {
      UprightRestart(st, u);
    }
  }

  lemma {:induction false} UprightRun(st: State, trace: seq<Step>, u: Universe)
    requires Upright(st, u) && BlocksConsistent(u) && ValidRun(st, trace, u) && ShrinkFree(st, trace)
    requires forall step | step in trace :: DropSaved(step) && SeesOneChain(step)
    ensures Upright(Run(st, trace), u)
    ensures CheckedRestarts(st, trace)
    decreases |trace|
  {
    if trace != [] {
      if trace[0].Restart? { UprightRestart(st, u); }
      UprightStep(st, trace[0], u);
      UprightRun(Next(st, trace[0]), trace[1..], u);
    }
  }

  lemma FreshUpright(u: Universe)
    ensures Upright(Fresh, u)
  {
    assert forall h :: At(Fresh.store, h).None?;
    assert Tower(Fresh.store, -1);
  }

  /**
   Crash-restart safety. While the gateway never reports a height below the
   cursor and no retirement before a write is lost, with any number of crashes
   and restarts anywhere, the NORMAL rows are exactly one hash-linked chain
   0..m, with m the cursor or one off it, and every restart is a checked one.
   */
  lemma CrashRestartSafety(trace: seq<Step>, u: Universe) returns (m: int)
    requires BlocksConsistent(u) && ValidRun(Fresh, trace, u) && ShrinkFree(Fresh, trace)
    requires forall step | step in trace :: DropSaved(step) && SeesOneChain(step)
    ensures CheckedRestarts(Fresh, trace)
    ensures var st := Run(Fresh, trace);
      && m >= -1 && st.cursor - 1 <= m <= st.cursor + 1
      && (forall h :: At(st.store, h).Some? <==> 0 <= h <= m)
      && (forall h :: Linked(st.store, h))
  {
    FreshUpright(u);
    UprightRun(Fresh, trace, u);
    var st := Run(Fresh, trace);
    m := TowerHeight(st.store, st.cursor);
    if m < -1 { EmptyTower(st.store, m, -1); m := -1; }
  }

  /** WriteBlock finds a FORK row to revive, and the COMMIT is lost. */
  ghost predicate RevivalLost(s: Store, f: Fetch, h: int, io: SyncIO) {
    var s1 := Drop(s, h, io.drop).store;
    io.blockLost && f.block.hash in s1.blocks && s1.blocks[f.block.hash].status == Fork
  }

  lemma DoneRowIff(s: Store, u: Universe, f: Fetch, h: int, io: SyncIO)
    requires StoreInv(s, u) && BlocksConsistent(u) && FetchServed(u, f, h) && h >= 0 && !io.drop.blockLost
    requires Outcome(s, f, h, io).verdict == Done
    ensures At(Outcome(s, f, h, io).store, h).None? <==> RevivalLost(s, f, h, io)
  {
    var s1 := Drop(s, h, io.drop).store;
    var s2 := SaveBlock(s1, f.block, io.blockLost);
    assert Writes(s, f, h, io) by { OutcomeIs(s, f, h, io); }
    WritesAll(s, f, h, io);
    DropReady(s, u, f, h, io.drop);
    SavedRowIff(s1, u, f.block, io.blockLost);
    SaveKeeps(s1, u, f.block, io.blockLost);
    WriteAllKeeps(s2, u, f.block, io, h);
  }

  lemma SavedRowIff(s: Store, u: Universe, b: ChainBlock, lost: bool)
    requires StoreInv(s, u) && BlocksConsistent(u) && Served(u, b)
    requires At(s, b.number).None? || At(s, b.number) == Some(b.hash)
    ensures At(SaveBlock(s, b, lost), b.number).None? <==> lost && b.hash in s.blocks && s.blocks[b.hash].status == Fork
  {
    PutKeeps(s, u, b);
    if lost && b.hash in s.blocks {
      assert RowServed(s.blocks[b.hash], u, b.hash);
      assert IsNormal(s, b.hash, b.number) <==> s.blocks[b.hash].status != Fork;
    }
  }

  /**
   A sync that ends well on a chain of rows leaves that chain ending at the new
   cursor, or one below it exactly when the block's revival was lost.
   */
  lemma ShortIffRevivalLost(s: Store, u: Universe, f: Fetch, c: int, io: SyncIO)
    requires StoreInv(s, u) && BlocksConsistent(u) && ValidFetch(u, f, c + 1) && c >= -1 && !io.drop.blockLost
    requires InReach(s, c) && Outcome(s, f, c + 1, io).verdict == Done
    ensures Tower(Outcome(s, f, c + 1, io).store, if RevivalLost(s, f, c + 1, io) then c else c + 1)
  {
    if c >= 0 && Tower(s, c - 1) {
      NoParentNoWrite(s, f, c, io);
    } else {
      if Tower(s, c - 1) { EmptyTower(s, c - 1, c); }
      OutcomeIs(s, f, c + 1, io);
      SyncTower(s, u, f, c + 1, io);
      DoneRowIff(s, u, f, c + 1, io);
    }
  }
}
