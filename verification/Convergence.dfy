/**
 Liveness of the loops of StartSyncLastBlock: against a fixed chain and without
 failures the inner loop walks back to the fork point and climbs to its target,
 if the chain reaches that high; then the next poll takes it to the top.
 */
module Convergence {
  import opened Common
  import opened Chain
  import opened Tables
  import opened Follower
  import opened Restarts
  import opened Runs
  import opened Agreement

  /** The block and its transactions pass the assertions of the Create functions and have a type. */
  ghost predicate Writable(b: ChainBlock) {
    && b.hash != NoHash && b.parentHash != NoHash
    && (forall t | t in b.txs :: t != NoHash && Typed(b.txs[t]))
  }

  /** A chain the gateway keeps serving, with nothing on it the follower cannot store. */
  ghost predicate Followable(u: Universe, chain: seq<ChainBlock>) {
    ValidChain(u, chain) && forall i | 0 <= i < |chain| :: Writable(chain[i])
  }

  function FetchAt(chain: seq<ChainBlock>, h: int): Fetch
    requires 0 <= h < |chain|
  {
    Fetch(chain[h], if h > 0 then chain[h - 1] else chain[h])
  }

  /** The environment of one SyncOneBlock in which nothing fails. */
  function Clean(b: ChainBlock): SyncIO {
    SyncIO(CleanDrop, false, false, false, b.txs.Keys, {}, false)
  }

  /** One iteration of the inner loop against the fixed chain. */
  function Iteration(chain: seq<ChainBlock>, c: int): Step
    requires 0 <= c + 1 < |chain|
  {
    Sync(FetchAt(chain, c + 1), Clean(chain[c + 1]))
  }

  /** The NORMAL row at height `h` is the chain's block. */
  ghost predicate OnChain(s: Store, chain: seq<ChainBlock>, h: int)
    requires h < |chain|
  {
    h < 0 || At(s, h) == Some(chain[h].hash)
  }

  /** The greatest height up to `c` whose NORMAL row is the chain's, or -1. */
  ghost function ForkPoint(s: Store, chain: seq<ChainBlock>, c: int): (f: int)
    requires -1 <= c < |chain|
    ensures -1 <= f <= c && OnChain(s, chain, f)
    decreases c + 1
  {
    if OnChain(s, chain, c) then c else ForkPoint(s, chain, c - 1)
  }

  /** Iterations left: walk back from the cursor to the fork point, then climb to the top. */
  ghost function Remaining(st: State, chain: seq<ChainBlock>): nat
    requires -1 <= st.cursor < |chain|
  {
    var f := ForkPoint(st.store, chain, st.cursor);
    (st.cursor - f) + (|chain| - 1 - f)
  }

  lemma {:induction false} ForkPointSame(s: Store, s': Store, chain: seq<ChainBlock>, c: int)
    requires -1 <= c < |chain| && forall h :: h <= c ==> At(s', h) == At(s, h)
    ensures ForkPoint(s', chain, c) == ForkPoint(s, chain, c)
    decreases c + 1
  {
    if !OnChain(s, chain, c) { ForkPointSame(s, s', chain, c - 1); }
  }

  /** The block rows are in order and the chain can be followed. */
  ghost predicate InShape(st: State, u: Universe, chain: seq<ChainBlock>) {
    Safe(st, u) && Homed(st.store, u) && Consistent(u) && Followable(u, chain)
  }

  /** So are the transactions. */
  ghost predicate InOrder(st: State, u: Universe, chain: seq<ChainBlock>) {
    InShape(st, u, chain) && Agree(st, u)
  }

  /** In addition the inner loop is on its way to the top of the chain, or there. */
  ghost predicate Following(st: State, u: Universe, chain: seq<ChainBlock>) {
    && InOrder(st, u, chain)
    && st.target == (if st.cursor < |chain| - 1 then Some(|chain| - 1) else None)
    && st.cursor < |chain|
  }

  lemma FetchValid(u: Universe, chain: seq<ChainBlock>, h: int)
    requires ValidChain(u, chain) && 0 <= h < |chain|
    ensures ValidFetch(u, FetchAt(chain, h), h)
  {}

  /** Nothing stands in the way of writing the chain's block over a matching parent. */
  lemma WriteSucceeds(st: State, u: Universe, chain: seq<ChainBlock>)
    requires InOrder(st, u, chain) && st.cursor < |chain| - 1
    ensures var b := chain[st.cursor + 1];
      var s1 := Drop(st.store, st.cursor + 1, CleanDrop).store;
      BlockWritable(s1, b) && AllWritable(PutBlock(s1, b), b)
  {
    var h := st.cursor + 1;
    var b := chain[h];
    var s1 := Drop(st.store, h, CleanDrop).store;
    FetchValid(u, chain, h);
    forall t | t in b.txs ensures TxWritable(PutBlock(s1, b), t, b.txs[t]) {
      assert NoClash(s1, t) by { NoClashInSync(st, u, FetchAt(chain, h), Clean(b), t); }
    }
  }

  /** Over the chain's own row, an undisturbed call gets as far as WriteTransactions. */
  lemma WritesOnChain(st: State, u: Universe, chain: seq<ChainBlock>, io: SyncIO)
    requires InShape(st, u, chain) && st.cursor < |chain| - 1 && OnChain(st.store, chain, st.cursor)
    requires io.drop == CleanDrop && !io.readFails && !io.blockFails
    ensures Writes(st.store, FetchAt(chain, st.cursor + 1), st.cursor + 1, io)
  {
    var h := st.cursor + 1;
    assert At(Drop(st.store, h, CleanDrop).store, h - 1) == At(st.store, h - 1) by {
      DropAt(st.store, u, h, CleanDrop, h - 1);
    }
    assert Writable(chain[h]);
  }

  /** Without the parent it looks for, an undisturbed call only drops its height. */
  lemma WalksOff(s: Store, u: Universe, f: Fetch, h: int, io: SyncIO)
    requires StoreInv(s, u) && io.drop == CleanDrop && !io.readFails && ParentDiffers(s, f, h)
    ensures Outcome(s, f, h, io).verdict == WalkBack && Outcome(s, f, h, io).store == Drop(s, h, CleanDrop).store
  {
    OutcomeIs(s, f, h, io);
    DropAt(s, u, h, CleanDrop, h - 1);
  }

  /** An iteration finishes its block exactly when the cursor is at the fork point, and walks back otherwise. */
  lemma IterationVerdict(st: State, u: Universe, chain: seq<ChainBlock>)
    requires InOrder(st, u, chain) && st.cursor < |chain| - 1
    ensures var h := st.cursor + 1;
      Outcome(st.store, FetchAt(chain, h), h, Clean(chain[h])).verdict ==
        (if OnChain(st.store, chain, st.cursor) then Done else WalkBack)
  {
    var h := st.cursor + 1;
    if OnChain(st.store, chain, st.cursor) {
      WritesOnChain(st, u, chain, Clean(chain[h]));
      WritesAll(st.store, FetchAt(chain, h), h, Clean(chain[h]));
      WriteSucceeds(st, u, chain);
    } else {
      WalksOff(st.store, u, FetchAt(chain, h), h, Clean(chain[h]));
    }
  }

  lemma IterationKeeps(st: State, u: Universe, chain: seq<ChainBlock>)
    requires Following(st, u, chain) && st.cursor < |chain| - 1
    ensures Following(Next(st, Iteration(chain, st.cursor)), u, chain)
  {
    var f, io := FetchAt(chain, st.cursor + 1), Clean(chain[st.cursor + 1]);
    var st' := Climbed(st, f, io);
    FetchValid(u, chain, st.cursor + 1);
    assert Safe(st', u) by { SyncSafe(st, f, io, u); }
    assert Agree(st', u) by { AgreeSync(st, f, io, u); }
    IterationVerdict(st, u, chain);
  }

  /** What one iteration does to the cursor and the NORMAL rows. */
  lemma IterationRows(st: State, u: Universe, chain: seq<ChainBlock>)
    requires InOrder(st, u, chain) && st.cursor < |chain| - 1
    ensures var st' := Next(st, Iteration(chain, st.cursor));
      && (forall j :: j != st.cursor + 1 ==> At(st'.store, j) == At(st.store, j))
      && (OnChain(st.store, chain, st.cursor) ==> st'.cursor == st.cursor + 1 && OnChain(st'.store, chain, st'.cursor))
      && (!OnChain(st.store, chain, st.cursor) ==> st'.cursor == st.cursor - 1)
  {
    var h := st.cursor + 1;
    var f, io := FetchAt(chain, h), Clean(chain[h]);
    var r := Outcome(st.store, f, h, io);
    FetchValid(u, chain, h);
    IterationVerdict(st, u, chain);
    assert forall j :: j != h ==> At(r.store, j) == At(st.store, j) by { SyncOthers(st.store, u, f, h, io); }
    assert r.verdict == Done ==> At(r.store, h) == Some(chain[h].hash) by { SyncRows(st.store, u, f, h, io); }
  }

  /** Each iteration brings the loop exactly one iteration closer to its end. */
  lemma IterationProgress(st: State, u: Universe, chain: seq<ChainBlock>)
    requires InOrder(st, u, chain) && st.cursor < |chain| - 1
    ensures var st' := Next(st, Iteration(chain, st.cursor));
      -1 <= st'.cursor < |chain| && Remaining(st', chain) == Remaining(st, chain) - 1
  {
    IterationRows(st, u, chain);
    RemainingDrops(st, Next(st, Iteration(chain, st.cursor)), chain);
  }

  /** Climbing from the fork point or walking back towards it takes one off what remains. */
  lemma RemainingDrops(st: State, st': State, chain: seq<ChainBlock>)
    requires -1 <= st.cursor < |chain| - 1
    requires forall j :: j != st.cursor + 1 ==> At(st'.store, j) == At(st.store, j)
    requires OnChain(st.store, chain, st.cursor) ==> st'.cursor == st.cursor + 1 && OnChain(st'.store, chain, st'.cursor)
    requires !OnChain(st.store, chain, st.cursor) ==> st'.cursor == st.cursor - 1
    ensures -1 <= st'.cursor < |chain| && Remaining(st', chain) == Remaining(st, chain) - 1
  {
    if !OnChain(st.store, chain, st.cursor) {
      ForkPointSame(st.store, st'.store, chain, st.cursor - 1);
    }
  }

  /** The loop: `for blockNumber > block_now`, every iteration against the fixed chain. */
  ghost function CatchUp(st: State, u: Universe, chain: seq<ChainBlock>): State
    requires Following(st, u, chain)
    decreases Remaining(st, chain)
  {
    if st.cursor < |chain| - 1 then
      IterationKeeps(st, u, chain);
      IterationProgress(st, u, chain);
      CatchUp(Next(st, Iteration(chain, st.cursor)), u, chain)
    else st
  }

  /** How many times the loop body runs. */
  ghost function Iterations(st: State, u: Universe, chain: seq<ChainBlock>): nat
    requires Following(st, u, chain)
    decreases Remaining(st, chain)
  {
    if st.cursor < |chain| - 1 then
      IterationKeeps(st, u, chain);
      IterationProgress(st, u, chain);
      1 + Iterations(Next(st, Iteration(chain, st.cursor)), u, chain)
    else 0
  }

  /** A linked prefix that meets the chain at its top is the chain all the way down. */
  lemma {:induction false} MatchesBelow(s: Store, u: Universe, chain: seq<ChainBlock>, c: int, h: int)
    requires StoreInv(s, u) && ValidChain(u, chain) && Prefix(s, c)
    requires 0 <= h <= c < |chain| && OnChain(s, chain, c)
    ensures OnChain(s, chain, h)
    decreases c - h
  {
    if h < c {
      MatchesBelow(s, u, chain, c, h + 1);
      assert Linked(s, h + 1);
    }
  }

  /** The loop ends at the top of the chain, on the chain. */
  lemma {:induction false} CatchUpEnds(st: State, u: Universe, chain: seq<ChainBlock>)
    requires Following(st, u, chain)
    requires st.cursor < |chain| - 1 || OnChain(st.store, chain, st.cursor)
    ensures var end := CatchUp(st, u, chain);
      Following(end, u, chain) && end.cursor == |chain| - 1 && OnChain(end.store, chain, end.cursor)
    ensures Iterations(st, u, chain) == Remaining(st, chain)
    decreases Remaining(st, chain)
  {
    if st.cursor < |chain| - 1 {
      IterationKeeps(st, u, chain);
      IterationProgress(st, u, chain);
      IterationRows(st, u, chain);
      CatchUpEnds(Next(st, Iteration(chain, st.cursor)), u, chain);
    }
  }

  /** The tables hold the chain's block and transactions at every height, with the cursor at the top. */
  ghost predicate Mirrors(st: State, chain: seq<ChainBlock>) {
    && st.cursor == |chain| - 1 && st.target.None?
    && forall h | 0 <= h < |chain| :: At(st.store, h) == Some(chain[h].hash) && NormalTxs(st.store, h) == chain[h].txs.Keys
  }

  lemma MirrorsAt(st: State, u: Universe, chain: seq<ChainBlock>, h: int)
    requires InOrder(st, u, chain) && st.cursor == |chain| - 1 && OnChain(st.store, chain, st.cursor) && 0 <= h < |chain|
    ensures At(st.store, h) == Some(chain[h].hash) && NormalTxs(st.store, h) == chain[h].txs.Keys
  {
    MatchesBelow(st.store, u, chain, st.cursor, h);
    assert CompleteAt(st.store, u, h);
    assert Served(u, chain[h]);
    forall t ensures t in NormalTxs(st.store, h) <==> t in chain[h].txs {
      assert IsNormalTx(st.store, t, h) <==> InNormalBlock(st.store, u, t, h);
    }
  }

  lemma OnTopMirrors(st: State, u: Universe, chain: seq<ChainBlock>)
    requires Following(st, u, chain) && st.cursor == |chain| - 1 && OnChain(st.store, chain, st.cursor)
    ensures Mirrors(st, chain)
  {
    forall h | 0 <= h < |chain|
      ensures At(st.store, h) == Some(chain[h].hash) && NormalTxs(st.store, h) == chain[h].txs.Keys
    {
      MirrorsAt(st, u, chain, h);
    }
  }

  /**
   Convergence. From any safe state below a fixed chain of height N, without
   failures, the inner loop ends with the cursor at N, the NORMAL row at every
   height 0..N is the chain's block there, and its NORMAL transactions are that
   block's. The body runs once per height walked back and once per height climbed.
   */
  lemma Converges(st: State, u: Universe, chain: seq<ChainBlock>)
    requires Following(st, u, chain) && st.cursor < |chain| - 1
    ensures Mirrors(CatchUp(st, u, chain), chain)
    ensures var f := ForkPoint(st.store, chain, st.cursor);
      Iterations(st, u, chain) == (st.cursor - f) + (|chain| - 1 - f)
  {
    CatchUpEnds(st, u, chain);
    OnTopMirrors(CatchUp(st, u, chain), u, chain);
  }

  /*--- A loop already running, with whatever target it has ---*/

  const NoBlock := ChainBlock(0, NoHash, NoHash, map[])

  /** A height the chain does not have: the gateway call fails, and nothing else does. */
  const Missing := SyncIO(CleanDrop, true, false, false, {}, {}, false)

  /** One pass of the inner loop against a fixed chain, which may be lower than the target. */
  function Pass(chain: seq<ChainBlock>, c: int): Step
    requires c >= -1
  {
    if c + 1 < |chain| then Iteration(chain, c) else Sync(Fetch(NoBlock, NoBlock), Missing)
  }

  /** The tables are in order and the inner loop is running. */
  ghost predicate Climbing(st: State, u: Universe, chain: seq<ChainBlock>) {
    InOrder(st, u, chain) && st.target.Some?
  }

  lemma PassLoose(st: State, u: Universe, chain: seq<ChainBlock>)
    requires Loose(st, u) && BlocksConsistent(u) && ValidChain(u, chain) && st.target.Some?
    ensures Loose(Next(st, Pass(chain, st.cursor)), u)
  {
    var step := Pass(chain, st.cursor);
    if st.cursor + 1 < |chain| { FetchValid(u, chain, st.cursor + 1); }
    SyncLoose(st, step.fetch, step.io, u);
  }

  /** The state after `n` passes, or when the loop ends if that is sooner. */
  ghost function Passes(st: State, u: Universe, chain: seq<ChainBlock>, n: nat): State
    requires Loose(st, u) && BlocksConsistent(u) && ValidChain(u, chain)
    decreases n
  {
    if n == 0 || st.target.None? then st
    else
      PassLoose(st, u, chain);
      Passes(Next(st, Pass(chain, st.cursor)), u, chain, n - 1)
  }

  /** A pass that cannot read its block does not finish it. */
  lemma MissingStops(s: Store, h: int)
    ensures Outcome(s, Fetch(NoBlock, NoBlock), h, Missing).verdict == Stopped
  {
    OutcomeIs(s, Fetch(NoBlock, NoBlock), h, Missing);
  }

  /** With a target the chain does not reach, the loop never ends: the height is not polled again. */
  lemma {:induction false} NeverEnds(st: State, u: Universe, chain: seq<ChainBlock>, n: nat)
    requires Loose(st, u) && BlocksConsistent(u) && ValidChain(u, chain)
    requires st.target.Some? && st.target.value >= |chain|
    ensures Passes(st, u, chain, n).target == st.target
    decreases n
  {
    if n > 0 {
      PassLoose(st, u, chain);
      MissingStops(st.store, st.cursor + 1);
      NeverEnds(Next(st, Pass(chain, st.cursor)), u, chain, n - 1);
    }
  }

  lemma PrefixFollowable(u: Universe, chain: seq<ChainBlock>, n: nat)
    requires Followable(u, chain) && n <= |chain|
    ensures Followable(u, chain[..n])
  {}

  /** With a target the chain reaches, the passes are the iterations against the chain up to the target. */
  lemma {:induction false} PassesCatchUp(st: State, u: Universe, chain: seq<ChainBlock>, top: seq<ChainBlock>, n: nat)
    requires Following(st, u, top) && ValidChain(u, chain) && top <= chain
    requires n == Remaining(st, top)
    requires st.cursor < |top| - 1 || OnChain(st.store, top, st.cursor)
    ensures Passes(st, u, chain, n) == CatchUp(st, u, top)
    decreases n
  {
    if st.cursor < |top| - 1 {
      var st' := Next(st, Iteration(top, st.cursor));
      IterationKeeps(st, u, top);
      IterationProgress(st, u, top);
      IterationRows(st, u, top);
      PassesCatchUp(st', u, chain, top, n - 1);
      assert Pass(chain, st.cursor) == Iteration(top, st.cursor);
      PassThenPasses(st, st', u, chain, n);
    }
  }

  lemma PassThenPasses(st: State, st': State, u: Universe, chain: seq<ChainBlock>, n: nat)
    requires Loose(st, u) && BlocksConsistent(u) && ValidChain(u, chain) && st.target.Some? && n > 0
    requires st' == Next(st, Pass(chain, st.cursor)) && Loose(st', u)
    ensures Passes(st, u, chain, n) == Passes(st', u, chain, n - 1)
  {}

  /** The chain as far as the loop will climb. */
  function UpTo(chain: seq<ChainBlock>, target: int): seq<ChainBlock>
    requires -1 <= target < |chain|
  {
    chain[..target + 1]
  }

  lemma ClimbsTo(st: State, u: Universe, chain: seq<ChainBlock>)
    requires Climbing(st, u, chain) && st.target.value < |chain|
    ensures Following(st, u, UpTo(chain, st.target.value))
  {
    PrefixFollowable(u, chain, st.target.value + 1);
  }

  /** A running inner loop ends against a fixed chain exactly when the chain reaches its target. */
  lemma LoopEndsIff(st: State, u: Universe, chain: seq<ChainBlock>)
    requires Climbing(st, u, chain)
    ensures (exists n: nat :: Passes(st, u, chain, n).target.None?) <==> st.target.value < |chain|
  {
    if st.target.value < |chain| {
      var top := UpTo(chain, st.target.value);
      ClimbsTo(st, u, chain);
      PassesCatchUp(st, u, chain, top, Remaining(st, top));
      CatchUpEnds(st, u, top);
    } else {
      forall n: nat ensures Passes(st, u, chain, n).target.Some? {
        NeverEnds(st, u, chain, n);
      }
    }
  }

  /*--- From any reachable state ---*/

  /** The inner loop is running towards a height the chain has, or is idle below the top of the chain. */
  predicate WillSettle(st: State, chain: seq<ChainBlock>) {
    if st.target.Some? then st.target.value < |chain| else st.cursor < |chain| - 1
  }

  /** The climb under way, if any, then the poll that finds the chain's height. */
  ghost function PolledAgain(st: State, u: Universe, chain: seq<ChainBlock>): State
    requires InOrder(st, u, chain) && WillSettle(st, chain)
  {
    if st.target.Some? then
      ClimbsTo(st, u, chain);
      Polled(CatchUp(st, u, UpTo(chain, st.target.value)), |chain| - 1, CleanDrop)
    else Polled(st, |chain| - 1, CleanDrop)
  }

  lemma PollFollows(st: State, u: Universe, chain: seq<ChainBlock>)
    requires InOrder(st, u, chain) && st.target.None? && st.cursor < |chain|
    ensures Following(Polled(st, |chain| - 1, CleanDrop), u, chain)
  {
    assert Polled(st, |chain| - 1, CleanDrop) ==
      State(st.cursor, if |chain| - 1 > st.cursor then Some(|chain| - 1) else None, st.store);
  }

  /**
   Convergence in context: whatever the run so far left, idle or in the middle
   of a climb, once the gateway serves a stable chain that the climb's target
   does not exceed, the loop finishes that climb, polls, and mirrors the chain.
   */
  lemma ConvergesAfterAnyRun(trace: seq<Step>, u: Universe, chain: seq<ChainBlock>)
    requires Consistent(u) && ValidRun(Fresh, trace, u) && CheckedRestarts(Fresh, trace) && CountedRestarts(Fresh, trace)
    requires forall step | step in trace :: AllSaved(step) && SeesOneChain(step)
    requires Followable(u, chain) && WillSettle(Run(Fresh, trace), chain)
    ensures var st := Run(Fresh, trace);
      && InOrder(st, u, chain)
      && Following(PolledAgain(st, u, chain), u, chain)
      && Mirrors(CatchUp(PolledAgain(st, u, chain), u, chain), chain)
  {
    var st := Run(Fresh, trace);
    FreshUpright(u);
    assert Safe(st, u) by { SafeRun(Fresh, trace, u); }
    assert Agree(st, u) by { AgreeRun(Fresh, trace, u); }
    if st.target.Some? {
      ClimbsTo(st, u, chain);
      CatchUpEnds(st, u, UpTo(chain, st.target.value));
      PollFollows(CatchUp(st, u, UpTo(chain, st.target.value)), u, chain);
    } else {
      PollFollows(st, u, chain);
    }
    var st' := PolledAgain(st, u, chain);
    CatchUpEnds(st', u, chain);
    OnTopMirrors(CatchUp(st', u, chain), u, chain);
  }

  /*--- Panics ---*/

  /**
   A pass that stops leaves the cursor where it is. An error returned leaves the
   loop running with its target; a recovered panic leaves it idle.
   */
  lemma StoppedClimb(st: State, f: Fetch, io: SyncIO)
    requires Outcome(st.store, f, st.cursor + 1, io).verdict == Stopped
    ensures var st' := Climbed(st, f, io);
      st'.cursor == st.cursor && (io.panics ==> st'.target.None?) && (!io.panics ==> st'.target == st.target)
  {}

  /**
   A panic frees the loop: whatever it was climbing to, even a height the chain
   no longer has, after a recovered panic it polls again, and then it converges.
   */
  lemma PanicFrees(st: State, u: Universe, chain: seq<ChainBlock>)
    requires InOrder(st, u, chain) && st.cursor < |chain| - 1
    ensures var trace := [Panic, Poll(|chain| - 1, CleanDrop)];
      && ValidRun(st, trace, u) && Run(st, trace) == State(st.cursor, Some(|chain| - 1), st.store)
      && Following(Run(st, trace), u, chain) && Mirrors(CatchUp(Run(st, trace), u, chain), chain)
  {
    var poll := Poll(|chain| - 1, CleanDrop);
    var idle := Next(st, Panic);
    var polled := State(st.cursor, Some(|chain| - 1), st.store);
    assert idle == State(st.cursor, None, st.store);
    assert Next(idle, poll) == polled;
    RunSnoc(st, [], Panic, u);
    RunSnoc(st, [Panic], poll, u);
    assert [] + [Panic] == [Panic] && [Panic] + [poll] == [Panic, poll];
    assert InOrder(polled, u, chain);
    Converges(polled, u, chain);
  }
}
