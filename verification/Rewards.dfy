/**
 Reward totals per miner: kept up to date write by write, and recomputed from
 the block table by the periodic check.
 */
module Rewards {
  import opened Common
  import opened MiningDays
  import Decimal

  datatype RewardRow = RewardRow(total: string, fees: string)

  /** One call of WriteMinerRewards. */
  datatype Write = Write(miner: string, reward: int, fees: int)

  /** The largest timestamp the check looks at. */
  const LATEST := 9540364631

  /** What the rewards written for `miner` add up to. */
  function Written(writes: seq<Write>, miner: string): int {
    if writes == [] then 0
    else Written(writes[..|writes| - 1], miner) +
         if writes[|writes| - 1].miner == miner then writes[|writes| - 1].reward else 0
  }

  ghost predicate HasTotal(row: RewardRow, n: int) {
    Decimal.Parse(row.total) == Some(n)
  }

  ghost predicate Seen(writes: seq<Write>, miner: string) {
    exists w | w in writes :: w.miner == miner
  }

  /** The miner has a row exactly when something was written for it, and the row holds its running total. */
  ghost predicate TotalOf(rows: map<string, RewardRow>, writes: seq<Write>, m: string) {
    && (m in rows <==> Seen(writes, m))
    && (m in rows ==> HasTotal(rows[m], Written(writes, m)))
  }

  ghost predicate Totals(rows: map<string, RewardRow>, writes: seq<Write>) {
    forall m :: TotalOf(rows, writes, m)
  }

  lemma WrittenSnoc(writes: seq<Write>, w: Write, m: string)
    ensures Written(writes + [w], m) == Written(writes, m) + if w.miner == m then w.reward else 0
  {
    assert (writes + [w])[..|writes|] == writes;
  }

  /** Writes add up: those of two stretches, and each its own reward. */
  lemma {:induction false} WrittenAdds(first: seq<Write>, second: seq<Write>, m: string)
    ensures Written(first + second, m) == Written(first, m) + Written(second, m)
    ensures forall w: Write :: w.miner == m ==> Written([w], m) == w.reward
    decreases |second|
  {
    forall w: Write | w.miner == m ensures Written([w], m) == w.reward {
      assert [w][..0] == [];
    }
    if second == [] {
      assert first + second == first;
    } else {
      var n := |second| - 1;
      WrittenAdds(first, second[..n], m);
      WrittenSnoc(first + second[..n], second[n], m);
      assert (first + second[..n]) + [second[n]] == first + second;
    }
  }

  lemma SeenSnoc(writes: seq<Write>, w: Write, m: string)
    ensures Seen(writes + [w], m) <==> Seen(writes, m) || w.miner == m
  {
    assert w in writes + [w];
    assert forall x | x in writes :: x in writes + [w];
    assert forall x | x in writes + [w] :: x in writes || x == w;
  }

  lemma {:induction false} WrittenNone(writes: seq<Write>, m: string)
    requires !Seen(writes, m)
    ensures Written(writes, m) == 0
  {
    if writes != [] { WrittenNone(writes[..|writes| - 1], m); }
  }

  lemma TotalsStep(rows: map<string, RewardRow>, rows': map<string, RewardRow>, writes: seq<Write>, w: Write)
    requires Totals(rows, writes)
    requires rows'.Keys == rows.Keys + {w.miner}
    requires forall m | m in rows && m != w.miner :: rows'[m] == rows[m]
    requires HasTotal(rows'[w.miner], Written(writes, w.miner) + w.reward)
    ensures Totals(rows', writes + [w])
  {
    forall m ensures TotalOf(rows', writes + [w], m) {
      assert TotalOf(rows, writes, m);
      SeenSnoc(writes, w, m);
      WrittenSnoc(writes, w, m);
    }
  }

  class MinerRewards {
    var rows: map<string, RewardRow>
    /** Every call that went through, in order. */
    ghost var writes: seq<Write>

    ghost predicate Valid()
      reads this
    {
      Totals(rows, writes)
    }

    constructor ()
      ensures Valid() && rows == map[] && writes == []
    {
      rows, writes := map[], [];
    }

    /** Adds to the miner's total, or creates the row; the fee total is written only on creation. */
    method WriteMinerRewards(w: Write) returns (ok: bool)
      requires Valid()
      modifies this
      ensures Valid() && ok == (w.miner in old(rows) || w.miner != "")
      ensures writes == if ok then old(writes) + [w] else old(writes)
      ensures forall m | m in old(rows) && m != w.miner :: m in rows && rows[m] == old(rows)[m]
      ensures !ok ==> rows == old(rows)
      ensures ok ==> w.miner in rows
      ensures ok && w.miner in old(rows) ==> rows[w.miner].fees == old(rows)[w.miner].fees
      ensures ok && w.miner !in old(rows) ==> rows[w.miner].fees == Decimal.Print(w.fees)
    {
      assert TotalOf(rows, writes, w.miner);
      if w.miner !in rows {
        if w.miner == "" { return false; }
        WrittenNone(writes, w.miner);
        Decimal.ParsePrint(w.reward);
        var created := RewardRow(Decimal.Print(w.reward), Decimal.Print(w.fees));
        TotalsStep(rows, rows[w.miner := created], writes, w);
        rows := rows[w.miner := created];
      } else {
        var before := Decimal.Parse(rows[w.miner].total);
        Decimal.ParsePrint(before.value + w.reward);
        var updated := rows[w.miner].(total := Decimal.Print(before.value + w.reward));
        TotalsStep(rows, rows[w.miner := updated], writes, w);
        rows := rows[w.miner := updated];
      }
      writes := writes + [w];
      return true;
    }
  }

  /*--- The periodic check ---*/

  /** The NORMAL blocks of each miner. */
  type Blocks = map<string, seq<Mined>>

  function MinedBy(blocks: Blocks, miner: string): seq<Mined> {
    if miner in blocks then Between(blocks[miner], 0, LATEST) else []
  }

  /** The check looks at every block of the miner from the epoch to the year 2272. */
  lemma MinedByExact(blocks: Blocks, miner: string, b: Mined)
    requires miner in blocks
    ensures multiset(MinedBy(blocks, miner))[b] == if 0 <= b.timestamp <= 9540364631 then multiset(blocks[miner])[b] else 0
  {
    BetweenExact(blocks[miner], 0, LATEST, b);
  }

  /** A row whose total is the sum over the miner's blocks. */
  function Recomputed(row: RewardRow, mined: seq<Mined>): RewardRow {
    row.(total := Decimal.Print(Sum(mined, RewardOf)))
  }

  /** Every miner's total replaced by the sum over its blocks, and nothing else. */
  function Checked(rows: map<string, RewardRow>, blocks: Blocks): map<string, RewardRow> {
    map m | m in rows :: Recomputed(rows[m], MinedBy(blocks, m))
  }

  /** One miner: sums the blocks and updates the total when a column differs. */
  method CheckMiner(row: RewardRow, mined: seq<Mined>) returns (ok: bool, r: RewardRow)
    ensures ok <==> AllReadable(mined)
    ensures ok ==> r == Recomputed(row, mined)
  {
    r := row;
    var rewards, fees;
    ok, rewards, fees := SumDay(mined);
    if ok && (row.total != Decimal.Print(rewards) || row.fees != Decimal.Print(fees)) {
      r := row.(total := Decimal.Print(rewards));
    }
  }

  /** The miners not in `todo` are checked, those in it are untouched. */
  ghost predicate Halfway(rows: map<string, RewardRow>, blocks: Blocks, now: map<string, RewardRow>, todo: set<string>) {
    && todo <= rows.Keys == now.Keys
    && forall m | m in rows :: now[m] == if m in todo then rows[m] else Recomputed(rows[m], MinedBy(blocks, m))
  }

  lemma HalfwayStep(
    rows: map<string, RewardRow>, blocks: Blocks, now: map<string, RewardRow>, todo: set<string>, m: string, row: RewardRow)
    requires Halfway(rows, blocks, now, todo) && m in todo && row == Recomputed(rows[m], MinedBy(blocks, m))
    ensures Halfway(rows, blocks, now[m := row], todo - {m})
  {}

  lemma HalfwayEnds(rows: map<string, RewardRow>, blocks: Blocks, now: map<string, RewardRow>, todo: set<string>)
    requires Halfway(rows, blocks, now, todo)
    ensures todo == {} ==> now == Checked(rows, blocks)
    ensures now.Keys == rows.Keys && forall m | m in rows :: now[m] == rows[m] || now[m] == Checked(rows, blocks)[m]
  {}

  ghost predicate ReadableMiners(blocks: Blocks, miners: set<string>) {
    forall m | m in miners :: AllReadable(MinedBy(blocks, m))
  }

  lemma ReadableOneMore(blocks: Blocks, miners: set<string>, todo: set<string>, m: string)
    requires m in todo && todo <= miners && AllReadable(MinedBy(blocks, m))
    requires ReadableMiners(blocks, miners - todo)
    ensures ReadableMiners(blocks, miners - (todo - {m}))
  {}

  /** One pass over the miners. It stops on an amount it cannot read, with every row either untouched or checked. */
  method CheckReward(rows: map<string, RewardRow>, blocks: Blocks) returns (ok: bool, r: map<string, RewardRow>)
    ensures ok <==> ReadableMiners(blocks, rows.Keys)
    ensures ok ==> r == Checked(rows, blocks)
    ensures r.Keys == rows.Keys && forall m | m in rows :: r[m] == rows[m] || r[m] == Checked(rows, blocks)[m]
  {
    r := rows;
    var todo := rows.Keys;
    while todo != {}
      invariant Halfway(rows, blocks, r, todo)
      invariant ReadableMiners(blocks, rows.Keys - todo)
      decreases |todo|
    {
      var m :| m in todo;
      var readable, row := CheckMiner(r[m], MinedBy(blocks, m));
      if !readable {
        HalfwayEnds(rows, blocks, r, todo);
        return false, r;
      }
      HalfwayStep(rows, blocks, r, todo, m, row);
      ReadableOneMore(blocks, rows.Keys, todo, m);
      r := r[m := row];
      todo := todo - {m};
    }
    HalfwayEnds(rows, blocks, r, todo);
    assert rows.Keys - {} == rows.Keys;
    return true, r;
  }

  /**
   After a full pass every total parses to the sum over the miner's blocks, the
   other column is as it was, and a second pass changes nothing.
   */
  lemma CheckRewardSettles(rows: map<string, RewardRow>, blocks: Blocks, m: string)
    requires m in rows
    ensures var checked := Checked(rows, blocks);
      && HasTotal(checked[m], Sum(MinedBy(blocks, m), RewardOf))
      && checked[m].fees == rows[m].fees
      && Checked(checked, blocks) == checked
  {
    Decimal.ParsePrint(Sum(MinedBy(blocks, m), RewardOf));
  }
}
