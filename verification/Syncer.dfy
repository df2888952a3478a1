/**
 The follower as it is written: an object with a cursor and two tables that its
 methods update row by row. Every method is proved against the functions of
 Tables and Follower, so the theorems about runs are theorems about this code.
 */
module SyncerImpl {
  import opened Common
  import opened Chain
  import opened Tables
  import opened Follower
  import opened Restarts
  import opened Runs
  import opened Agreement
  import opened Convergence
  import Decimal

  /** How the environment treats one SyncOneBlock; `bad` are the transactions whose database call fails. */
  datatype Faults = Faults(
    drop: DropIO, readFails: bool, blockFails: bool, blockLost: bool, bad: set<Hash>, lost: set<Hash>, panics: bool)

  const Perfect := Faults(CleanDrop, false, false, false, {}, {}, false)

  /** What the faults mean for a call that gets to the transactions in `reached`. */
  function Suffered(faults: Faults, reached: set<Hash>): SyncIO {
    SyncIO(faults.drop, faults.readFails, faults.blockFails, faults.blockLost, reached, faults.lost, faults.panics)
  }

  /** Once height `h` is dropped and the block written, each of its transactions can be written. */
  ghost predicate Unclashed(s: Store, f: Fetch, h: int) {
    AllWritable(PutBlock(Drop(s, h, CleanDrop).store, f.block), f.block)
  }

  /** What happens to the process next. The block is served from `chain`, its parent from `parents`. */
  datatype Event =
    | GatewayDown
    | Report(height: int, drop: DropIO)
    | Serve(chain: seq<ChainBlock>, parents: seq<ChainBlock>, faults: Faults)
    | Panicked
    | Killed

  class Syncer {
    ghost const u: Universe
    var cursor: int
    var target: Option<int>
    var blocks: map<Hash, BlockRow>
    var txs: map<Hash, TxRow>

    ghost function Rows(): Store
      reads this
    {
      Store(blocks, txs)
    }

    ghost function Now(): State
      reads this
    {
      State(cursor, target, Rows())
    }

    ghost predicate Valid()
      reads this
    {
      BlocksConsistent(u) && Base(Now(), u) && TxColumnsSound(Rows())
    }

    constructor (ghost u: Universe)
      requires BlocksConsistent(u)
      ensures Valid() && Now() == Fresh && this.u == u
    {
      this.u := u;
      cursor, target, blocks, txs := -1, None, map[], map[];
    }

    method FindBlockByHeight(height: int) returns (r: Option<Hash>)
      requires Unique(Rows())
      ensures r == At(Rows(), height)
    {
      if k :| k in blocks && blocks[k].status == Normal && blocks[k].height == height {
        AtIs(Rows(), k, height);
        return Some(k);
      } else {
        assert forall k :: !IsNormal(Rows(), k, height);
        return None;
      }
    }

    /** SELECT MAX(F_block) over the NORMAL rows, with NULL scanned as 0. */
    method GetMaxBlockNumber() returns (m: int)
      requires Valid()
      ensures m == MaxHeight(Rows())
    {
      HasTop(Rows());
      if k :| k in blocks && IsTop(Store(blocks, txs), k) {
        AtIs(Rows(), k, blocks[k].height);
        m := blocks[k].height;
      } else {
        m := 0;
      }
      MaxIsUnique(Rows(), u, m);
    }

    /** Retires the NORMAL block at `height` and, one by one, its NORMAL transactions. */
    method DropBlok(height: int, io: DropIO) returns (ok: bool)
      requires Unique(Rows()) && TxColumnsSound(Rows())
      modifies this`blocks, this`txs
      ensures Drop(old(Rows()), height, io) == Dropped(Rows(), ok)
    {
      if height <= 1 { return true; }
      if io.blockFails { return false; }
      var found := FindBlockByHeight(height);
      if found.None? { return true; }
      if !io.blockLost {
        blocks := blocks[found.value := blocks[found.value].(status := Fork)];
      }
      RetireTransactions(height, io.lost);
      return !io.dies;
    }

    /** The loop of DropBlok over the NORMAL transactions at `height`. */
    method RetireTransactions(height: int, lost: set<Hash>)
      requires TxColumnsSound(Rows())
      modifies this`txs
      ensures txs == RetireTxs(old(txs), height, lost)
    {
      ghost var was := txs;
      var todo := set t | t in txs && txs[t].status == Normal && txs[t].height == height;
      while todo != {}
        invariant Retiring(was, txs, todo, height, lost)
        decreases |todo|
      {
        var t :| t in todo;
        AmountParses(txs[t].data.fee);
        if Decimal.Parse(txs[t].data.fee).None? {
          // The code would end its loop here, leaving transactions behind; every stored fee parses.
          assert false;
        }
        RetiringStep(was, txs, todo, height, lost, t);
        if t !in lost {
          txs := txs[t := txs[t].(status := Fork)];
        }
        todo := todo - {t};
      }
    }

    /** Revives the row with this hash, or inserts one with the fees summed over the transactions. */
    method WriteBlock(b: ChainBlock, fails: bool, lost: bool) returns (ok: bool)
      modifies this`blocks
      ensures ok <==> !fails && BlockWritable(old(Rows()), b)
      ensures Rows() == if ok then SaveBlock(old(Rows()), b, lost) else old(Rows())
      ensures ok && b.hash !in old(blocks) && b.txs == map[] ==> blocks[b.hash].totals == Totals(0, "0")
      ensures ok && b.hash !in old(blocks) ==> forall t | b.txs.Keys == {t} ::
        blocks[b.hash].totals == Totals(1, Decimal.Print(b.txs[t].gasPrice * b.txs[t].gasUsed))
    {
      SmallTotals(b.txs);
      if fails { return false; }
      if b.hash in blocks {
        if blocks[b.hash].status != Normal && !lost {
          blocks := blocks[b.hash := blocks[b.hash].(status := Normal)];
        }
        return true;
      }
      var fees := SumFees(b);
      if b.hash == NoHash || b.parentHash == NoHash { return false; }
      var totals := Totals(|b.txs|, Decimal.Print(fees));
      blocks := blocks[b.hash := BlockRow(b.number, b.hash, b.parentHash, totals, Normal)];
      return true;
    }

    /** The fee total, in whatever order the transactions are visited. */
    static method SumFees(b: ChainBlock) returns (fees: int)
      ensures fees == TotalFees(b.txs)
    {
      fees := 0;
      var todo := b.txs.Keys;
      ghost var left := Fees(b.txs);
      while todo != {}
        invariant todo <= b.txs.Keys
        invariant left.Keys == todo && forall t | t in todo :: left[t] == Fee(b.txs[t])
        invariant fees + SumMap(left) == TotalFees(b.txs)
        decreases |todo|
      {
        var t :| t in todo;
        SumMapRemove(left, t);
        fees := fees + b.txs[t].gasPrice * b.txs[t].gasUsed;
        left := left - {t};
        todo := todo - {t};
      }
    }

    /** Revives the row or inserts one; a NORMAL row falls through to an insert the UNIQUE key rejects. */
    method WriteTransaction(b: ChainBlock, t: Hash, lost: bool) returns (ok: bool)
      requires t in b.txs
      modifies this`txs
      ensures ok <==> TxWritable(old(Rows()), t, b.txs[t])
      ensures txs == if ok && !(lost && t in old(txs)) then old(txs)[t := WrittenRow(old(Rows()), b, t)] else old(txs)
    {
      if t in txs {
        if txs[t].status == Normal { return false; }
        if !lost {
          txs := txs[t := txs[t].(status := Normal)];
        }
        return true;
      }
      var tx := b.txs[t];
      var ty := CalcTransactionType(tx.to, tx.input);
      if ty.None? || t == NoHash { return false; }
      var fee := tx.gasPrice * tx.gasUsed;
      var data := TxData(tx.from, tx.to, Decimal.Print(tx.value), Decimal.Print(fee), ty.value.kind, ty.value.ext);
      txs := txs[t := TxRow(b.number, t, data, Normal)];
      return true;
    }

    /** The loop of WriteTransactions over the transactions of `b`, in any order, until one fails. */
    method WriteTransactions(b: ChainBlock, bad: set<Hash>, lost: set<Hash>) returns (ok: bool, ghost reached: set<Hash>)
      modifies this`txs
      ensures Rows() == PutTxs(old(Rows()), b, Saved(old(Rows()), reached, lost))
      ensures reached <= b.txs.Keys
      ensures ok <==> AllWritable(old(Rows()), b) && reached == b.txs.Keys
      ensures ok <==> AllWritable(old(Rows()), b) && bad !! b.txs.Keys
    {
      ghost var before := Rows();
      var todo := b.txs.Keys;
      reached := {};
      NoneSaved(before, b, lost);
      while todo != {}
        invariant Writing(before, b, todo, reached, bad)
        invariant Rows() == PutTxs(before, b, Saved(before, reached, lost))
        decreases |todo|
      {
        var t :| t in todo;
        if t in bad {
          WritingFails(before, b, todo, reached, bad, t);
          return false, reached;
        }
        SaveStep(before, b, reached, lost, t);
        var written := WriteTransaction(b, t, t in lost);
        if !written {
          WritingFails(before, b, todo, reached, bad, t);
          return false, reached;
        }
        WritingStep(before, b, todo, reached, bad, t);
        reached := reached + {t};
        todo := todo - {t};
      }
      ok := true;
    }

    /** The second half of SyncOneBlock: the block, then its transactions. */
    method WriteFetched(f: Fetch, faults: Faults) returns (v: Verdict, ghost io: SyncIO)
      modifies this`blocks, this`txs
      ensures io == Suffered(faults, io.reached)
      ensures Synced(Rows(), v) ==
        if faults.blockFails || !BlockWritable(old(Rows()), f.block) then Synced(old(Rows()), Stopped)
        else WriteAll(SaveBlock(old(Rows()), f.block, faults.blockLost), f.block, io)
      ensures faults == Perfect && AllWritable(PutBlock(old(Rows()), f.block), f.block) ==> io == Clean(f.block)
    {
      io := Suffered(faults, f.block.txs.Keys);
      var wroteBlock := WriteBlock(f.block, faults.blockFails, faults.blockLost);
      if !wroteBlock { return Stopped, io; }
      var wroteAll, reached := WriteTransactions(f.block, faults.bad, faults.lost);
      io := Suffered(faults, reached);
      v := if wroteAll then Done else Stopped;
    }

    /**
     One height: drop what is there, check the parent, write the block and its
     transactions. Steps the cursor back when the parent does not match.
     */
    method SyncOneBlock(height: int, f: Fetch, faults: Faults) returns (v: Verdict, ghost io: SyncIO)
      requires Valid() && height == cursor + 1
      modifies this`cursor, this`blocks, this`txs
      ensures Outcome(old(Rows()), f, height, io) == Synced(Rows(), v)
      ensures io == Suffered(faults, io.reached)
      ensures cursor == if v == WalkBack then old(cursor) - 1 else old(cursor)
      ensures faults == Perfect && Unclashed(old(Rows()), f, height) ==> io == Clean(f.block)
    {
      ghost var before := Rows();
      io := Suffered(faults, f.block.txs.Keys);
      var dropped := DropBlok(height, faults.drop);
      ghost var cleared := Rows();
      if !dropped || faults.readFails {
        StopsEarly(before, cleared, f, height, io, dropped);
        return Stopped, io;
      }
      assert Unique(cleared) by { DropKeeps(before, u, height, faults.drop); }
      var parent := FindBlockByHeight(height - 1);
      if height != 0 && parent != Some(f.parent.hash) {
        cursor := cursor - 1;
        StopsAtParent(before, cleared, f, height, io);
        return WalkBack, io;
      }
      v, io := WriteFetched(f, faults);
      GetsToWrite(before, cleared, f, height, io, Synced(Rows(), v));
    }

    /** The head of the outer loop: shrink by one, or start climbing. */
    method Poll(height: int, io: DropIO)
      requires Valid() && target.None? && height >= 0
      modifies this
      ensures Valid() && Now() == Next(old(Now()), Step.Poll(height, io))
    {
      ghost var start := Now();
      PollBase(start, height, io, u);
      DropColumns(start.store, start.cursor - 1, io);
      if height < cursor {
        cursor := cursor - 1;
        var _ := DropBlok(cursor, io);
      } else {
        target := if height > cursor then Some(height) else None;
      }
      assert Now() == Polled(start, height, io);
    }

    /** One pass of the inner loop. */
    method Climb(f: Fetch, faults: Faults) returns (ghost io: SyncIO)
      requires Valid() && target.Some? && !faults.drop.blockLost
      requires faults.readFails || FetchServed(u, f, cursor + 1)
      modifies this
      ensures Valid() && Now() == Next(old(Now()), Sync(f, io))
      ensures Enabled(old(Now()), Sync(f, io), u) && io == Suffered(faults, io.reached)
      ensures faults == Perfect && Unclashed(old(Rows()), f, old(cursor) + 1) ==> io == Clean(f.block)
    {
      ghost var start := Now();
      var v;
      v, io := SyncOneBlock(cursor + 1, f, faults);
      Advance(v, faults.panics);
      assert Now() == Climbed(start, f, io);
      SyncBase(start, f, io, u);
      ColumnsSync(start, f, io);
    }

    /** What the inner loop does after SyncOneBlock, which has already stepped back on a mismatch. */
    method Advance(v: Verdict, panics: bool)
      modifies this`cursor, this`target
      ensures cursor == if v == Done then old(cursor) + 1 else old(cursor)
      ensures target ==
        if (v == Done && old(target) == Some(cursor)) || (v == Stopped && panics) then None else old(target)
    {
      match v {
        case Done =>
          cursor := cursor + 1;
          if target == Some(cursor) { target := None; }
        case WalkBack =>
        case Stopped =>
          if panics { target := None; }
      }
    }

    /** The inner loop against a chain that stays put, with nothing failing. */
    method CatchUp(chain: seq<ChainBlock>)
      requires Valid() && Following(Now(), u, chain) && cursor < |chain| - 1
      modifies this
      ensures Valid() && Mirrors(Now(), chain)
    {
      ghost var start := Now();
      while cursor < |chain| - 1
        invariant Valid() && Chasing(start, Now(), u, chain)
        decreases Left(Now(), u, chain)
      {
        ghost var here := Now();
        PassReady(here, u, chain);
        ghost var io := Climb(FetchAt(chain, cursor + 1), Perfect);
        PassTaken(start, here, Now(), u, chain);
      }
      Converges(start, u, chain);
    }

    /** StartSyncLastBlock of a new process on the same tables. */
    method Restart()
      requires Valid()
      modifies this`cursor, this`target
      ensures Valid() && Now() == Next(old(Now()), Step.Restart)
    {
      RestartLoose(Now(), u);
      var max := GetMaxBlockNumber();
      cursor, target := max - 1, None;
    }

    /** One event, if it can reach the loop where it is. */
    method React(e: Event) returns (applies: bool, ghost step: Step)
      requires Valid() && Allowed(e, u)
      modifies this
      ensures Valid() && Reacted(old(Now()), Now(), e, applies, step, u)
    {
      step := PollFailed;
      applies := if e.GatewayDown? || e.Report? then target.None? else e.Serve? ==> target.Some?;
      if !applies { return; }
      match e {
        case GatewayDown =>
        case Report(height, drop) =>
          Poll(height, drop);
          step := Step.Poll(height, drop);
        case Serve(chain, parents, faults) =>
          var fetch := Request(chain, parents, cursor + 1);
          var missing := IsMissing(chain, parents, cursor + 1);
          RequestServed(u, chain, parents, cursor + 1);
          var io := Climb(fetch, faults.(readFails := faults.readFails || missing));
          step := Sync(fetch, io);
        case Panicked =>
          target := None;
          step := Panic;
        case Killed =>
          Restart();
          step := Step.Restart;
      }
    }

    /**
     The whole of StartSyncLastBlock, driven by any sequence of events. A block
     the served chain does not have is a failing call. The tables end as the
     run of the returned trace leaves them.
     */
    method Follow(events: seq<Event>) returns (ghost trace: seq<Step>)
      requires Valid() && forall e | e in events :: Allowed(e, u)
      modifies this
      ensures Valid() && ValidRun(old(Now()), trace, u) && Now() == Run(old(Now()), trace)
      ensures Enacts(old(Now()), events, trace)
    {
      trace := [];
      ghost var start := Now();
      for i := 0 to |events|
        invariant Valid() && Followed(start, Now(), events[..i], trace, u)
      {
        ghost var here := Now();
        var applies, step := React(events[i]);
        trace := FollowStep(start, here, Now(), events[..i], trace, events[i], applies, step, u);
        assert events[..i + 1] == events[..i] + [events[i]];
      }
      assert events[..|events|] == events;
    }
  }

  /** The gateway reports heights from 0 up and serves valid chains; no retirement before a write is lost. */
  ghost predicate Allowed(e: Event, u: Universe) {
    && (e.Report? ==> e.height >= 0)
    && (e.Serve? ==> ValidChain(u, e.chain) && ValidChain(u, e.parents) && !e.faults.drop.blockLost)
  }

  predicate IsMissing(chain: seq<ChainBlock>, parents: seq<ChainBlock>, h: int) {
    h >= |chain| || h - 1 >= |parents|
  }

  /** What the two GetBlockByNumber calls return, perhaps from two chain views; a missing height makes them fail. */
  function Request(chain: seq<ChainBlock>, parents: seq<ChainBlock>, h: int): Fetch
    requires h >= 0
  {
    if IsMissing(chain, parents, h) then Fetch(NoBlock, NoBlock)
    else Fetch(chain[h], if h > 0 then parents[h - 1] else chain[h])
  }

  lemma RequestServed(u: Universe, chain: seq<ChainBlock>, parents: seq<ChainBlock>, h: int)
    requires ValidChain(u, chain) && ValidChain(u, parents) && h >= 0
    ensures !IsMissing(chain, parents, h) ==> FetchServed(u, Request(chain, parents, h), h)
  {}

  /** The loop is at a point where this event can reach it. */
  predicate Applies(st: State, e: Event) {
    match e
    case GatewayDown => st.target.None?
    case Report(_, _) => st.target.None?
    case Serve(_, _, _) => st.target.Some?
    case Panicked => true
    case Killed => true
  }

  /** The step the loop takes on an event. */
  ghost predicate Answers(st: State, e: Event, step: Step) {
    match e
    case GatewayDown => step == PollFailed
    case Report(height, drop) => step == Step.Poll(height, drop)
    case Serve(chain, parents, faults) =>
      && st.cursor >= -1 && step.Sync? && step.fetch == Request(chain, parents, st.cursor + 1)
      && var missing := IsMissing(chain, parents, st.cursor + 1);
        step.io == Suffered(faults.(readFails := faults.readFails || missing), step.io.reached)
    case Panicked => step == Panic
    case Killed => step == Step.Restart
  }

  /** The trace is the events' steps, in order; events that cannot reach the loop are passed over. */
  ghost predicate Enacts(st: State, events: seq<Event>, trace: seq<Step>)
    decreases |events|
  {
    if events == [] then trace == []
    else if Applies(st, events[0]) then
      trace != [] && Answers(st, events[0], trace[0]) && Enacts(Next(st, trace[0]), events[1..], trace[1..])
    else Enacts(st, events[1..], trace)
  }

  lemma {:induction false} EnactsSnoc(st: State, events: seq<Event>, trace: seq<Step>, e: Event, step: Step)
    requires Enacts(st, events, trace)
    requires Applies(Run(st, trace), e) ==> Answers(Run(st, trace), e, step)
    ensures Enacts(st, events + [e], if Applies(Run(st, trace), e) then trace + [step] else trace)
    decreases |events|
  {
    var all := events + [e];
    if events == [] {
      assert all == [e] && all[1..] == [];
      assert [step][1..] == [];
    } else {
      assert all[0] == events[0] && all[1..] == events[1..] + [e];
      if Applies(st, events[0]) {
        EnactsSnoc(Next(st, trace[0]), events[1..], trace[1..], e, step);
        assert (trace + [step])[1..] == trace[1..] + [step];
      } else {
        EnactsSnoc(st, events[1..], trace, e, step);
      }
    }
  }

  /** After a panic, whatever happened before it, the loop is idle and the next report reaches it. */
  lemma {:induction false} IdleAfterPanic(st: State, events: seq<Event>, trace: seq<Step>)
    requires Enacts(st, events, trace) && events != [] && events[|events| - 1].Panicked?
    ensures Run(st, trace).target.None?
    ensures forall height, drop :: Applies(Run(st, trace), Report(height, drop))
    decreases |events|
  {
    if |events| == 1 {
      assert events[1..] == [];
    } else if Applies(st, events[0]) {
      IdleAfterPanic(Next(st, trace[0]), events[1..], trace[1..]);
    } else {
      IdleAfterPanic(st, events[1..], trace);
    }
  }

  /**
   An event that can reach the loop made it take the matching step; any other
   changed nothing, and neither did a gateway that is down. A panic left cursor
   and rows as they were and the loop idle.
   */
  ghost predicate Reacted(here: State, now: State, e: Event, applies: bool, step: Step, u: Universe) {
    && applies == Applies(here, e)
    && (e.Panicked? ==> now == State(here.cursor, None, here.store))
    && (e.GatewayDown? ==> now == here)
    && if applies then Answers(here, e, step) && Enabled(here, step, u) && now == Next(here, step) else now == here
  }

  /** The events took the loop from `start` to `now` by the steps of the trace. */
  ghost predicate Followed(start: State, now: State, events: seq<Event>, trace: seq<Step>, u: Universe) {
    ValidRun(start, trace, u) && now == Run(start, trace) && Enacts(start, events, trace)
  }

  lemma FollowStep(
    start: State, here: State, now: State, events: seq<Event>, trace: seq<Step>, e: Event, applies: bool, step: Step,
    u: Universe) returns (trace': seq<Step>)
    requires Followed(start, here, events, trace, u) && Reacted(here, now, e, applies, step, u)
    ensures Followed(start, now, events + [e], trace', u)
  {
    EnactsSnoc(start, events, trace, e, step);
    if applies { RunSnoc(start, trace, step, u); }
    trace' := if applies then trace + [step] else trace;
  }

  /** The rows in `todo` are still to be retired, all others are as they will be. */
  ghost predicate Retiring(was: map<Hash, TxRow>, now: map<Hash, TxRow>, todo: set<Hash>, h: int, lost: set<Hash>) {
    && todo <= now.Keys == was.Keys
    && (forall t | t in todo :: now[t] == was[t] && was[t].status == Normal && was[t].height == h)
    && (forall t | t in now && t !in todo :: now[t] == RetireTxs(was, h, lost)[t])
  }

  lemma RetiringStep(was: map<Hash, TxRow>, now: map<Hash, TxRow>, todo: set<Hash>, h: int, lost: set<Hash>, t: Hash)
    requires Retiring(was, now, todo, h, lost) && t in todo
    ensures Retiring(was, if t in lost then now else now[t := now[t].(status := Fork)], todo - {t}, h, lost)
  {}

  lemma WrittenRowsStep(s: Store, b: ChainBlock, reached: set<Hash>, t: Hash)
    requires t in b.txs && TxWritable(s, t, b.txs[t])
    ensures WrittenRows(s, b, reached + {t}) == WrittenRows(s, b, reached)[t := WrittenRow(s, b, t)]
  {}

  lemma PutTxsUnreached(s: Store, b: ChainBlock, reached: set<Hash>, t: Hash)
    requires t !in reached
    ensures t in PutTxs(s, b, reached).txs <==> t in s.txs
    ensures t in s.txs ==> PutTxs(s, b, reached).txs[t] == s.txs[t]
  {}

  lemma WrittenRowSame(s: Store, p: Store, b: ChainBlock, t: Hash)
    requires t in b.txs && (t in p.txs <==> t in s.txs) && (t in s.txs ==> p.txs[t] == s.txs[t])
    ensures TxWritable(p, t, b.txs[t]) <==> TxWritable(s, t, b.txs[t])
    ensures TxWritable(s, t, b.txs[t]) ==> WrittenRow(p, b, t) == WrittenRow(s, b, t)
  {}

  /** A transaction not reached yet is as writable as before; reaching it writes just its row. */
  lemma PutTxsStep(s: Store, b: ChainBlock, reached: set<Hash>, t: Hash)
    requires t in b.txs && t !in reached
    ensures var p := PutTxs(s, b, reached);
      && (TxWritable(p, t, b.txs[t]) <==> TxWritable(s, t, b.txs[t]))
      && (TxWritable(s, t, b.txs[t]) ==>
            PutTxs(s, b, reached + {t}) == p.(txs := p.txs[t := WrittenRow(p, b, t)]))
  {
    var p := PutTxs(s, b, reached);
    PutTxsUnreached(s, b, reached, t);
    WrittenRowSame(s, p, b, t);
    if TxWritable(s, t, b.txs[t]) {
      WrittenRowsStep(s, b, reached, t);
      AddRow(s.txs, WrittenRows(s, b, reached), t, WrittenRow(s, b, t));
    }
  }

  lemma AddRow(m: map<Hash, TxRow>, n: map<Hash, TxRow>, t: Hash, row: TxRow)
    ensures m + n[t := row] == (m + n)[t := row]
  {}

  /** The transactions in `todo` are still to be written, those in `reached` were. */
  ghost predicate Writing(s: Store, b: ChainBlock, todo: set<Hash>, reached: set<Hash>, bad: set<Hash>) {
    && todo !! reached && todo + reached == b.txs.Keys
    && bad !! reached && forall t | t in reached :: t in b.txs && TxWritable(s, t, b.txs[t])
  }

  lemma WritingStep(s: Store, b: ChainBlock, todo: set<Hash>, reached: set<Hash>, bad: set<Hash>, t: Hash)
    requires Writing(s, b, todo, reached, bad) && t in todo && t !in bad && t in b.txs && TxWritable(s, t, b.txs[t])
    ensures Writing(s, b, todo - {t}, reached + {t}, bad)
  {}

  lemma WritingFails(s: Store, b: ChainBlock, todo: set<Hash>, reached: set<Hash>, bad: set<Hash>, t: Hash)
    requires Writing(s, b, todo, reached, bad) && t in todo && t in b.txs && (t in bad || !TxWritable(s, t, b.txs[t]))
    ensures reached <= b.txs.Keys && reached != b.txs.Keys && !(AllWritable(s, b) && bad !! b.txs.Keys)
  {}

  lemma NoneSaved(s: Store, b: ChainBlock, lost: set<Hash>)
    ensures PutTxs(s, b, Saved(s, {}, lost)) == s
  {
    assert Saved(s, {}, lost) == {};
    PutTxsNone(s, b);
  }

  lemma SavedNext(s: Store, reached: set<Hash>, lost: set<Hash>, t: Hash)
    ensures Saved(s, reached + {t}, lost) ==
      if t in lost && t in s.txs then Saved(s, reached, lost) else Saved(s, reached, lost) + {t}
  {}

  /** Reaching one more transaction writes just its row, or nothing if its revival is lost. */
  lemma SaveStep(s: Store, b: ChainBlock, reached: set<Hash>, lost: set<Hash>, t: Hash)
    requires t in b.txs && t !in reached
    ensures var p := PutTxs(s, b, Saved(s, reached, lost));
      && (t in p.txs <==> t in s.txs) && (TxWritable(p, t, b.txs[t]) <==> TxWritable(s, t, b.txs[t]))
      && (TxWritable(s, t, b.txs[t]) ==>
            PutTxs(s, b, Saved(s, reached + {t}, lost)) ==
            (if t in lost && t in s.txs then p else p.(txs := p.txs[t := WrittenRow(p, b, t)])))
  {
    SavedNext(s, reached, lost, t);
    PutTxsStep(s, b, Saved(s, reached, lost), t);
    PutTxsUnreached(s, b, Saved(s, reached, lost), t);
  }

  /*--- SyncOneBlock, branch by branch ---*/

  lemma StopsEarly(s: Store, s1: Store, f: Fetch, h: int, io: SyncIO, ok: bool)
    requires Drop(s, h, io.drop) == Dropped(s1, ok) && (!ok || io.readFails)
    ensures Outcome(s, f, h, io) == Synced(s1, Stopped)
  {
    OutcomeIs(s, f, h, io);
  }

  lemma StopsAtParent(s: Store, s1: Store, f: Fetch, h: int, io: SyncIO)
    requires Drop(s, h, io.drop) == Dropped(s1, true) && !io.readFails && ParentDiffers(s1, f, h)
    ensures Outcome(s, f, h, io) == Synced(s1, WalkBack)
  {
    OutcomeIs(s, f, h, io);
  }

  lemma GetsToWrite(s: Store, s1: Store, f: Fetch, h: int, io: SyncIO, r: Synced)
    requires Drop(s, h, io.drop) == Dropped(s1, true) && !io.readFails && !ParentDiffers(s1, f, h)
    requires r == if io.blockFails || !BlockWritable(s1, f.block) then Synced(s1, Stopped)
      else WriteAll(SaveBlock(s1, f.block, io.blockLost), f.block, io)
    ensures Outcome(s, f, h, io) == r
  {
    OutcomeIs(s, f, h, io);
  }

  /** Against the fixed chain nothing stands in the way of one more pass. */
  lemma PassReady(st: State, u: Universe, chain: seq<ChainBlock>)
    requires Following(st, u, chain) && st.cursor < |chain| - 1
    ensures var f := FetchAt(chain, st.cursor + 1);
      FetchServed(u, f, st.cursor + 1) && Unclashed(st.store, f, st.cursor + 1)
  {
    FetchValid(u, chain, st.cursor + 1);
    WriteSucceeds(st, u, chain);
  }

  /** The loop that was at `start` is at `now`, with the same end before it. */
  ghost predicate Chasing(start: State, now: State, u: Universe, chain: seq<ChainBlock>)
    requires Following(start, u, chain)
  {
    Following(now, u, chain) && Convergence.CatchUp(now, u, chain) == Convergence.CatchUp(start, u, chain)
  }

  ghost function Left(st: State, u: Universe, chain: seq<ChainBlock>): nat {
    if Following(st, u, chain) then Remaining(st, chain) else 0
  }

  /** What one pass against the fixed chain does. */
  lemma PassTaken(start: State, st: State, st': State, u: Universe, chain: seq<ChainBlock>)
    requires Following(start, u, chain) && Chasing(start, st, u, chain)
    requires st.cursor < |chain| - 1 && st' == Next(st, Iteration(chain, st.cursor))
    ensures Chasing(start, st', u, chain) && Left(st', u, chain) < Left(st, u, chain)
  {
    IterationKeeps(st, u, chain);
    IterationProgress(st, u, chain);
  }

  /** A NORMAL row that no NORMAL row is above. */
  predicate IsTop(s: Store, k: Hash) {
    && k in s.blocks && s.blocks[k].status == Normal
    && forall j | j in s.blocks && s.blocks[j].status == Normal :: s.blocks[j].height <= s.blocks[k].height
  }

  lemma HasTop(s: Store)
    ensures (forall k | k in s.blocks :: s.blocks[k].status != Normal) || exists k | k in s.blocks :: IsTop(s, k)
  {
    var ks := set k | k in s.blocks && s.blocks[k].status == Normal;
    assert forall k | k in s.blocks && s.blocks[k].status == Normal :: k in ks;
    if ks != {} {
      var top := Highest(s, ks);
      assert top in s.blocks && IsTop(s, top);
    }
  }

  lemma MaxIsUnique(s: Store, u: Universe, m: int)
    requires RowsServed(s, u) && BlocksConsistent(u) && (m == 0 || At(s, m).Some?)
    requires forall k | k in s.blocks && s.blocks[k].status == Normal :: s.blocks[k].height <= m
    ensures m == MaxHeight(s)
  {
    MaxExists(s, u);
    assert forall h :: At(s, h).Some? ==> IsNormal(s, At(s, h).value, h);
  }
}
