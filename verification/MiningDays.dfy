/**
 The per-day mining queries: a date range is cut into windows of one day, each
 window is queried on its own, and the results are listed or summed up.
 */
module MiningDays {
  import opened Common
  import Decimal

  const DAY := 86400

  /** A NORMAL block row of one miner. */
  datatype Mined = Mined(height: int, timestamp: int, reward: string, fees: string)

  /** FindMinedBlockByAddrAndTime: the rows with a timestamp in [lo, hi]. */
  function Between(rows: seq<Mined>, lo: int, hi: int): (r: seq<Mined>)
    ensures forall b | b in r :: b in rows && lo <= b.timestamp <= hi
  {
    if rows == [] then []
    else
      var rest := Between(rows[1..], lo, hi);
      if lo <= rows[0].timestamp <= hi then [rows[0]] + rest else rest
  }

  /** The result has exactly the rows in the window, each as often as the table has it. */
  lemma {:induction false} BetweenExact(rows: seq<Mined>, lo: int, hi: int, b: Mined)
    ensures multiset(Between(rows, lo, hi))[b] == if lo <= b.timestamp <= hi then multiset(rows)[b] else 0
  {
    if rows != [] {
      BetweenExact(rows[1..], lo, hi, b);
      assert rows == [rows[0]] + rows[1..];
    }
  }

  /** Adjacent windows partition the window they make up. */
  lemma {:induction false} BetweenSplit(rows: seq<Mined>, lo: int, mid: int, hi: int)
    requires lo <= mid <= hi + 1
    ensures multiset(Between(rows, lo, hi)) == multiset(Between(rows, lo, mid - 1)) + multiset(Between(rows, mid, hi))
  {
    if rows != [] {
      BetweenSplit(rows[1..], lo, mid, hi);
    }
  }

  lemma {:induction false} BetweenNone(rows: seq<Mined>, lo: int, hi: int)
    requires hi < lo
    ensures Between(rows, lo, hi) == []
  {
    if rows != [] { BetweenNone(rows[1..], lo, hi); }
  }

  /*--- Amounts ---*/

  predicate Readable(b: Mined) {
    Decimal.Parse(b.reward).Some? && Decimal.Parse(b.fees).Some?
  }

  function Value(s: string): int {
    match Decimal.Parse(s) case Some(n) => n case None => 0
  }

  function RewardOf(b: Mined): int { Value(b.reward) }
  function FeesOf(b: Mined): int { Value(b.fees) }

  /** A readable block's amounts are what its own columns say. */
  lemma AmountsAre(b: Mined)
    requires Readable(b)
    ensures Decimal.Parse(b.reward) == Some(RewardOf(b)) && Decimal.Parse(b.fees) == Some(FeesOf(b))
  {}

  function Sum<T>(rows: seq<T>, amount: T -> int): int {
    if rows == [] then 0 else amount(rows[0]) + Sum(rows[1..], amount)
  }

  lemma {:induction false} SumConcat<T>(a: seq<T>, b: seq<T>, amount: T -> int)
    ensures Sum(a + b, amount) == Sum(a, amount) + Sum(b, amount)
  {
    if a == [] {
      assert a + b == b;
    } else {
      assert (a + b)[1..] == a[1..] + b;
      SumConcat(a[1..], b, amount);
    }
  }

  lemma SumBetween(rows: seq<Mined>, lo: int, hi: int, amount: Mined -> int)
    requires rows != []
    ensures Sum(Between(rows, lo, hi), amount) ==
      (if lo <= rows[0].timestamp <= hi then amount(rows[0]) else 0) + Sum(Between(rows[1..], lo, hi), amount)
  {
    var rest := Between(rows[1..], lo, hi);
    assert ([rows[0]] + rest)[1..] == rest;
  }

  /** Sums over adjacent windows add up. */
  lemma {:induction false} SumSplit(rows: seq<Mined>, lo: int, mid: int, hi: int, amount: Mined -> int)
    requires lo <= mid <= hi + 1
    ensures Sum(Between(rows, lo, hi), amount) ==
      Sum(Between(rows, lo, mid - 1), amount) + Sum(Between(rows, mid, hi), amount)
  {
    if rows != [] {
      SumSplit(rows[1..], lo, mid, hi, amount);
      SumBetween(rows, lo, hi, amount);
      SumBetween(rows, lo, mid - 1, amount);
      SumBetween(rows, mid, hi, amount);
    }
  }

  /*--- Windows of whole days ---*/

  /** The blocks of the day that begins at second `lo`. */
  function OneDay(rows: seq<Mined>, lo: int): seq<Mined> {
    Between(rows, lo, lo + DAY - 1)
  }

  /** The blocks of the `n` days from second `lo`. */
  function Days(rows: seq<Mined>, lo: int, n: nat): seq<Mined> {
    Between(rows, lo, lo + DAY * n - 1)
  }

  lemma NoDays(rows: seq<Mined>, lo: int)
    ensures Days(rows, lo, 0) == []
  {
    BetweenNone(rows, lo, lo - 1);
  }

  /** One more day adds exactly its own blocks, none of them seen before. */
  lemma NextDay(rows: seq<Mined>, lo: int, n: nat)
    ensures multiset(Days(rows, lo, n + 1)) == multiset(Days(rows, lo, n)) + multiset(OneDay(rows, lo + DAY * n))
  {
    var mid, hi := lo + DAY * n, lo + DAY * (n + 1) - 1;
    BetweenSplit(rows, lo, mid, hi);
    assert Days(rows, lo, n + 1) == Between(rows, lo, hi);
    assert Days(rows, lo, n) == Between(rows, lo, mid - 1);
    assert OneDay(rows, mid) == Between(rows, mid, hi);
  }

  lemma NextDaySum(rows: seq<Mined>, lo: int, n: nat, amount: Mined -> int)
    ensures Sum(Days(rows, lo, n + 1), amount) == Sum(Days(rows, lo, n), amount) + Sum(OneDay(rows, lo + DAY * n), amount)
  {
    SumSplit(rows, lo, lo + DAY * n, lo + DAY * (n + 1) - 1, amount);
  }

  ghost predicate AllReadable(blocks: seq<Mined>) {
    forall b | b in blocks :: Readable(b)
  }

  lemma ReadableUnion(all: seq<Mined>, some: seq<Mined>, rest: seq<Mined>)
    requires multiset(all) == multiset(some) + multiset(rest)
    ensures AllReadable(all) <==> AllReadable(some) && AllReadable(rest)
  {
    forall b ensures b in all <==> b in some || b in rest {
      assert b in all <==> b in multiset(all);
      assert b in some <==> b in multiset(some);
      assert b in rest <==> b in multiset(rest);
    }
  }

  lemma NextDayReadable(rows: seq<Mined>, lo: int, n: nat)
    ensures AllReadable(Days(rows, lo, n + 1)) <==> AllReadable(Days(rows, lo, n)) && AllReadable(OneDay(rows, lo + DAY * n))
  {
    NextDay(rows, lo, n);
    ReadableUnion(Days(rows, lo, n + 1), Days(rows, lo, n), OneDay(rows, lo + DAY * n));
  }

  /** Day by day, every amount can be read. */
  ghost predicate ReadableDays(rows: seq<Mined>, lo: int, n: nat) {
    n == 0 || (ReadableDays(rows, lo, n - 1) && AllReadable(OneDay(rows, lo + DAY * (n - 1))))
  }

  lemma {:induction false} ReadableDaysIs(rows: seq<Mined>, lo: int, n: nat)
    ensures ReadableDays(rows, lo, n) <==> AllReadable(Days(rows, lo, n))
  {
    if n == 0 {
      NoDays(rows, lo);
    } else {
      ReadableDaysIs(rows, lo, n - 1);
      NextDayReadable(rows, lo, n - 1);
    }
  }

  /** One unreadable day spoils every longer stretch. */
  lemma {:induction false} UnreadableDay(rows: seq<Mined>, lo: int, n: nat, m: nat)
    requires n < m && !AllReadable(OneDay(rows, lo + DAY * n))
    ensures !ReadableDays(rows, lo, m)
    decreases m
  {
    if n < m - 1 { UnreadableDay(rows, lo, n, m - 1); }
  }

  /*--- The requests ---*/

  /** At most 100 days apart, both at midnight. */
  predicate ValidRange(start: int, end: int) {
    end - start <= 100 * DAY && start % DAY == 0 && end % DAY == 0
  }

  /** The midnights from `start` to `end`, both included. */
  function DaysIn(start: int, end: int): nat {
    if start <= end then (end - start) / DAY + 1 else 0
  }

  /** The days of a valid range are at most 101 and reach to the last second of `end`. */
  lemma RangeDays(rows: seq<Mined>, start: int, end: int, offset: int)
    requires ValidRange(start, end)
    ensures DaysIn(start, end) <= 101
    ensures Days(rows, start + offset, DaysIn(start, end)) == Between(rows, start + offset, end + DAY - 1 + offset)
  {
    if start <= end {
      assert DAY * DaysIn(start, end) == end - start + DAY;
    } else {
      assert end <= start - DAY;
      NoDays(rows, start + offset);
      BetweenNone(rows, start + offset, end + DAY - 1 + offset);
    }
  }

  /** Where the loop over the days stands after `n` of them. */
  lemma LoopDays(start: int, end: int, n: nat)
    requires ValidRange(start, end) && n <= DaysIn(start, end)
    ensures start + DAY * n <= end <==> n < DaysIn(start, end)
  {}

  datatype Reply<T> = ParameterError | InnerError | Success(value: T)

  /** The block is earlier than `n` days after `lo`. */
  predicate Before(b: Mined, lo: int, n: int) {
    b.timestamp < lo + DAY * n
  }

  /** Day after day: whatever is listed ahead of a block of one day is not of a later day. */
  ghost predicate InDayOrder(blocks: seq<Mined>, lo: int) {
    forall i, j, n | 0 <= i < j < |blocks| && Before(blocks[j], lo, n) :: Before(blocks[i], lo, n)
  }

  lemma NextDayOrder(blocks: seq<Mined>, found: seq<Mined>, lo: int, n: nat)
    requires InDayOrder(blocks, lo) && forall b | b in blocks :: Before(b, lo, n)
    requires forall b | b in found :: !Before(b, lo, n) && Before(b, lo, n + 1)
    ensures InDayOrder(blocks + found, lo) && forall b | b in blocks + found :: Before(b, lo, n + 1)
  {
    var all := blocks + found;
    forall i, j, k | 0 <= i < j < |all| && Before(all[j], lo, k) ensures Before(all[i], lo, k) {
      if j >= |blocks| {
        assert all[j] in found;
        assert i < |blocks| ==> all[i] in blocks;
        assert i >= |blocks| ==> all[i] in found;
      }
    }
  }

  /** At most 100 days apart, both at midnight, in seconds. */
  predicate Acceptable(start: int, end: int) {
    end - start <= 8640000 && start % 86400 == 0 && end % 86400 == 0
  }

  /** The block is listed as often as the table has it if it is in the window, and not otherwise. */
  ghost predicate CoversOne(blocks: seq<Mined>, rows: seq<Mined>, lo: int, hi: int, b: Mined) {
    multiset(blocks)[b] == if lo <= b.timestamp <= hi then multiset(rows)[b] else 0
  }

  /** Exactly the rows from second `lo` to second `hi`, each as often as it is there. */
  ghost predicate Covers(blocks: seq<Mined>, rows: seq<Mined>, lo: int, hi: int) {
    forall b :: CoversOne(blocks, rows, lo, hi, b)
  }

  lemma RangeCovered(blocks: seq<Mined>, rows: seq<Mined>, lo: int, hi: int)
    requires multiset(blocks) == multiset(Between(rows, lo, hi))
    ensures Covers(blocks, rows, lo, hi)
  {
    forall b ensures CoversOne(blocks, rows, lo, hi, b) {
      BetweenExact(rows, lo, hi, b);
    }
  }

  /** get_mined_block_by_addr_and_date: one query per day, the results listed one after the other. */
  method BlocksByDate(rows: seq<Mined>, start: int, end: int, offset: int) returns (r: Reply<seq<Mined>>, ghost queries: nat)
    ensures r.Success? <==> Acceptable(start, end)
    ensures r.Success? ==> Covers(r.value, rows, start + offset, end + 86399 + offset) && InDayOrder(r.value, start + offset)
    ensures queries <= 101
  {
    queries := 0;
    if end - start > 8640000 { return ParameterError, queries; }
    if start % DAY != 0 || end % DAY != 0 { return ParameterError, queries; }
    var day := start;
    var blocks: seq<Mined> := [];
    NoDays(rows, start + offset);
    RangeDays(rows, start, end, offset);
    LoopDays(start, end, 0);
    while day <= end
      invariant day == start + DAY * queries && queries <= DaysIn(start, end)
      invariant day <= end <==> queries < DaysIn(start, end)
      invariant multiset(blocks) == multiset(Days(rows, start + offset, queries))
      invariant InDayOrder(blocks, start + offset) && forall b | b in blocks :: Before(b, start + offset, queries)
      decreases end - day
    {
      var found := OneDay(rows, day + offset);
      NextDay(rows, start + offset, queries);
      NextDayOrder(blocks, found, start + offset, queries);
      blocks := blocks + found;
      day := day + DAY;
      queries := queries + 1;
      LoopDays(start, end, queries);
    }
    RangeCovered(blocks, rows, start + offset, end + DAY - 1 + offset);
    return Success(blocks), queries;
  }

  /** One reported day; the reply shows the amounts in decimal. */
  datatype DayInfo = DayInfo(day: int, reward: int, fees: int, count: nat)

  function DayReward(d: DayInfo): int { d.reward }
  function DayFees(d: DayInfo): int { d.fees }

  /** What one day contributes to the report: nothing when its amounts are zero. */
  function DayReport(rows: seq<Mined>, day: int, offset: int): seq<DayInfo> {
    var blocks := OneDay(rows, day + offset);
    var rewards, fees := Sum(blocks, RewardOf), Sum(blocks, FeesOf);
    if rewards == 0 && fees == 0 then []
    else [DayInfo(day, rewards, fees, |blocks|)]
  }

  /** What `each` yields for the `n` days from `start`, one after the other. */
  function DayByDay<T>(each: int -> seq<T>, start: int, n: nat): seq<T> {
    if n == 0 then [] else DayByDay(each, start, n - 1) + each(start + DAY * (n - 1))
  }

  function Reporter(rows: seq<Mined>, offset: int): int -> seq<DayInfo> {
    day => DayReport(rows, day, offset)
  }

  /** The report over the first `n` days from `start`. */
  function Report(rows: seq<Mined>, start: int, offset: int, n: nat): seq<DayInfo> {
    DayByDay(Reporter(rows, offset), start, n)
  }

  lemma SumOne<T>(x: T, amount: T -> int)
    ensures Sum([x], amount) == amount(x)
  {}

  lemma DayReportSums(rows: seq<Mined>, day: int, offset: int)
    ensures Sum(DayReport(rows, day, offset), DayReward) == Sum(OneDay(rows, day + offset), RewardOf)
    ensures Sum(DayReport(rows, day, offset), DayFees) == Sum(OneDay(rows, day + offset), FeesOf)
  {
    var blocks := OneDay(rows, day + offset);
    var rewards, fees := Sum(blocks, RewardOf), Sum(blocks, FeesOf);
    var d := DayInfo(day, rewards, fees, |blocks|);
    SumOne(d, DayReward);
    SumOne(d, DayFees);
  }

  /** If each day yields its own share of a running total, `n` days yield the total. */
  lemma {:induction false} DaysAddUp<T>(
    each: int -> seq<T>, start: int, n: nat, reported: T -> int, share: int -> int, total: nat -> int)
    requires total(0) == 0
    requires forall k: nat :: total(k + 1) == total(k) + share(start + DAY * k)
    requires forall day :: Sum(each(day), reported) == share(day)
    ensures Sum(DayByDay(each, start, n), reported) == total(n)
  {
    if n > 0 {
      DaysAddUp(each, start, n - 1, reported, share, total);
      SumConcat(DayByDay(each, start, n - 1), each(start + DAY * (n - 1)), reported);
      assert total((n - 1) + 1) == total(n - 1) + share(start + DAY * (n - 1));
    }
  }

  /** The blocks' `amount` over the first `n` days from `start`. */
  function DaysTotal(rows: seq<Mined>, start: int, offset: int, amount: Mined -> int): nat -> int {
    (n: nat) => Sum(Days(rows, start + offset, n), amount)
  }

  function DayTotal(rows: seq<Mined>, offset: int, amount: Mined -> int): int -> int {
    day => Sum(OneDay(rows, day + offset), amount)
  }

  lemma DaysTotalStep(rows: seq<Mined>, start: int, offset: int, amount: Mined -> int, k: nat)
    ensures DaysTotal(rows, start, offset, amount)(k + 1) ==
      DaysTotal(rows, start, offset, amount)(k) + DayTotal(rows, offset, amount)(start + DAY * k)
  {
    NextDaySum(rows, start + offset, k, amount);
    assert start + offset + DAY * k == start + DAY * k + offset;
  }

  /** The days of a report, summed by `reported`, make up the blocks' `amount` when each single day does. */
  lemma ReportSums(
    rows: seq<Mined>, start: int, offset: int, n: nat, reported: DayInfo -> int, amount: Mined -> int)
    requires forall day :: Sum(Reporter(rows, offset)(day), reported) == DayTotal(rows, offset, amount)(day)
    ensures Sum(Report(rows, start, offset, n), reported) == DaysTotal(rows, start, offset, amount)(n)
  {
    var share := DayTotal(rows, offset, amount);
    var total := DaysTotal(rows, start, offset, amount);
    assert total(0) == 0 by { NoDays(rows, start + offset); }
    forall k: nat ensures total(k + 1) == total(k) + share(start + DAY * k) {
      DaysTotalStep(rows, start, offset, amount, k);
    }
    DaysAddUp(Reporter(rows, offset), start, n, reported, share, total);
  }

  lemma ReportRewards(rows: seq<Mined>, start: int, offset: int, n: nat)
    ensures Sum(Report(rows, start, offset, n), DayReward) == DaysTotal(rows, start, offset, RewardOf)(n)
  {
    forall day ensures Sum(Reporter(rows, offset)(day), DayReward) == DayTotal(rows, offset, RewardOf)(day) {
      DayReportSums(rows, day, offset);
    }
    ReportSums(rows, start, offset, n, DayReward, RewardOf);
  }

  lemma ReportFees(rows: seq<Mined>, start: int, offset: int, n: nat)
    ensures Sum(Report(rows, start, offset, n), DayFees) == DaysTotal(rows, start, offset, FeesOf)(n)
  {
    forall day ensures Sum(Reporter(rows, offset)(day), DayFees) == DayTotal(rows, offset, FeesOf)(day) {
      DayReportSums(rows, day, offset);
    }
    ReportSums(rows, start, offset, n, DayFees, FeesOf);
  }

  /** The entry gives its day's own rewards, fees and number of blocks, and they are not all zero. */
  ghost predicate DayExact(rows: seq<Mined>, offset: int, d: DayInfo) {
    && d.reward == Sum(OneDay(rows, d.day + offset), RewardOf)
    && d.fees == Sum(OneDay(rows, d.day + offset), FeesOf)
    && d.count == |OneDay(rows, d.day + offset)|
    && (d.reward != 0 || d.fees != 0)
  }

  ghost predicate Quiet(rows: seq<Mined>, offset: int, day: int) {
    Sum(OneDay(rows, day + offset), RewardOf) == 0 && Sum(OneDay(rows, day + offset), FeesOf) == 0
  }

  lemma DayReportExact(rows: seq<Mined>, day: int, offset: int)
    ensures |DayReport(rows, day, offset)| == if Quiet(rows, offset, day) then 0 else 1
    ensures forall d | d in DayReport(rows, day, offset) :: d.day == day && DayExact(rows, offset, d)
  {}

  /** The entries are exact, in order of days without repetition, and all before `limit`. */
  ghost predicate Ledger(rows: seq<Mined>, offset: int, report: seq<DayInfo>, limit: int) {
    && (forall i | 0 <= i < |report| :: DayExact(rows, offset, report[i]) && report[i].day < limit)
    && (forall i, j | 0 <= i < j < |report| :: report[i].day < report[j].day)
  }

  lemma LedgerExtends(rows: seq<Mined>, offset: int, report: seq<DayInfo>, day: int)
    requires Ledger(rows, offset, report, day)
    ensures Ledger(rows, offset, report + DayReport(rows, day, offset), day + DAY)
  {
    var more := DayReport(rows, day, offset);
    DayReportExact(rows, day, offset);
    forall i | 0 <= i < |report + more| ensures DayExact(rows, offset, (report + more)[i]) && (report + more)[i].day <= day {
      if i >= |report| { assert more[i - |report|] in more; }
    }
    assert forall i | |report| <= i < |report + more| :: (report + more)[i] in more;
  }

  /** Day `day` has an entry. */
  ghost predicate Listed(report: seq<DayInfo>, day: int) {
    exists d | d in report :: d.day == day
  }

  lemma ListedExtends(rows: seq<Mined>, offset: int, report: seq<DayInfo>, day: int, other: int)
    ensures Listed(report + DayReport(rows, day, offset), other) <==>
      Listed(report, other) || (other == day && !Quiet(rows, offset, day))
  {
    var more := DayReport(rows, day, offset);
    DayReportExact(rows, day, offset);
    assert forall d :: d in report + more <==> d in report || d in more;
    if !Quiet(rows, offset, day) { assert more[0] in more; }
  }

  /** One of the `n` midnights from `start`. */
  predicate Midnight(start: int, n: nat, day: int) {
    start <= day < start + DAY * n && (day - start) % DAY == 0
  }

  lemma NextMidnight(start: int, n: nat, day: int)
    ensures Midnight(start, n + 1, day) <==> Midnight(start, n, day) || day == start + DAY * n
  {}

  lemma NoEntries(rows: seq<Mined>, start: int, offset: int)
    ensures Report(rows, start, offset, 0) == []
  {}

  /** `report` covers the first `n` days, the last of which ends at `limit`, and its entries are in order. */
  ghost predicate InLedger(rows: seq<Mined>, start: int, offset: int, n: nat, report: seq<DayInfo>, limit: int) {
    report == Report(rows, start, offset, n) && limit == start + DAY * n && Ledger(rows, offset, report, limit)
  }

  lemma LedgerStep(rows: seq<Mined>, start: int, offset: int, n: nat, report: seq<DayInfo>, day: int)
    requires InLedger(rows, start, offset, n, report, day)
    ensures InLedger(rows, start, offset, n + 1, report + DayReport(rows, day, offset), day + DAY)
  {
    assert report + DayReport(rows, day, offset) == Report(rows, start, offset, n + 1) by {
      ReportStep(rows, start, offset, n);
    }
    LedgerExtends(rows, offset, report, day);
  }

  lemma ReportLedger(rows: seq<Mined>, start: int, offset: int, n: nat)
    ensures Ledger(rows, offset, Report(rows, start, offset, n), start + DAY * n)
  {
    NoEntries(rows, start, offset);
    var report, day := [], start;
    for k := 0 to n
      invariant InLedger(rows, start, offset, k, report, day)
    {
      LedgerStep(rows, start, offset, k, report, day);
      report, day := report + DayReport(rows, day, offset), day + DAY;
    }
  }

  lemma ListsStep(rows: seq<Mined>, start: int, offset: int, n: nat, day: int)
    requires Listed(Report(rows, start, offset, n), day) <==> Midnight(start, n, day) && !Quiet(rows, offset, day)
    ensures Listed(Report(rows, start, offset, n + 1), day) <==> Midnight(start, n + 1, day) && !Quiet(rows, offset, day)
  {
    ListedExtends(rows, offset, Report(rows, start, offset, n), start + DAY * n, day);
    ReportStep(rows, start, offset, n);
    NextMidnight(start, n, day);
  }

  lemma {:induction false} ReportLists(rows: seq<Mined>, start: int, offset: int, n: nat, day: int)
    ensures Listed(Report(rows, start, offset, n), day) <==> Midnight(start, n, day) && !Quiet(rows, offset, day)
  {
    NoEntries(rows, start, offset);
    for k := 0 to n
      invariant Listed(Report(rows, start, offset, k), day) <==> Midnight(start, k, day) && !Quiet(rows, offset, day)
    {
      ListsStep(rows, start, offset, k, day);
    }
  }

  /**
   What a report says, day by day: its entries are exact and in order, and a
   day of the range is listed exactly when it has a reward or a fee to show.
   */
  lemma ReportExact(rows: seq<Mined>, start: int, end: int, offset: int)
    requires ValidRange(start, end)
    ensures var report := Report(rows, start, offset, DaysIn(start, end));
      && (forall i | 0 <= i < |report| :: DayExact(rows, offset, report[i]))
      && (forall i, j | 0 <= i < j < |report| :: report[i].day < report[j].day)
      && (forall day :: Listed(report, day) <==>
            start <= day <= end && day % DAY == 0 && !Quiet(rows, offset, day))
  {
    var n := DaysIn(start, end);
    ReportLedger(rows, start, offset, n);
    forall day ensures Listed(Report(rows, start, offset, n), day) <==>
      start <= day <= end && day % DAY == 0 && !Quiet(rows, offset, day)
    {
      ReportLists(rows, start, offset, n, day);
      MidnightsIn(start, end, day);
    }
  }

  lemma MidnightsIn(start: int, end: int, day: int)
    requires ValidRange(start, end)
    ensures Midnight(start, DaysIn(start, end), day) <==> start <= day <= end && day % DAY == 0
  {}

  /**
   Day-window conservation: on a valid range, although days without reward and
   fees are left out, the reported rewards and fees sum to those of all the
   miner's blocks in [start + offset, end + 86399 + offset].
   */
  lemma RangeConserves(rows: seq<Mined>, start: int, end: int, offset: int)
    requires ValidRange(start, end)
    ensures var report := Report(rows, start, offset, DaysIn(start, end));
      var blocks := Between(rows, start + offset, end + 86399 + offset);
      Sum(report, DayReward) == Sum(blocks, RewardOf) && Sum(report, DayFees) == Sum(blocks, FeesOf)
  {
    ReportRewards(rows, start, offset, DaysIn(start, end));
    ReportFees(rows, start, offset, DaysIn(start, end));
    RangeDays(rows, start, end, offset);
  }

  /** The inner loop: adds up one day's blocks, unless an amount cannot be read. */
  method SumDay(blocks: seq<Mined>) returns (ok: bool, rewards: int, fees: int)
    ensures ok <==> AllReadable(blocks)
    ensures ok ==> rewards == Sum(blocks, RewardOf) && fees == Sum(blocks, FeesOf)
  {
    rewards, fees := 0, 0;
    for i := 0 to |blocks|
      invariant rewards == Sum(blocks[..i], RewardOf) && fees == Sum(blocks[..i], FeesOf)
      invariant forall b | b in blocks[..i] :: Readable(b)
    {
      var reward := Decimal.Parse(blocks[i].reward);
      var fee := Decimal.Parse(blocks[i].fees);
      if reward.None? || fee.None? {
        assert blocks[i] in blocks && !Readable(blocks[i]);
        return false, rewards, fees;
      }
      SumConcat(blocks[..i], [blocks[i]], RewardOf);
      SumConcat(blocks[..i], [blocks[i]], FeesOf);
      SumOne(blocks[i], RewardOf);
      SumOne(blocks[i], FeesOf);
      assert blocks[..i + 1] == blocks[..i] + [blocks[i]];
      rewards, fees := rewards + reward.value, fees + fee.value;
    }
    assert blocks[..|blocks|] == blocks;
    ok := true;
  }

  lemma ReportStep(rows: seq<Mined>, start: int, offset: int, n: nat)
    ensures Report(rows, start, offset, n + 1) == Report(rows, start, offset, n) + DayReport(rows, start + DAY * n, offset)
  {}

  /** `days` reports the first `n` days, all of them readable. */
  ghost predicate Reports(days: seq<DayInfo>, rows: seq<Mined>, start: int, offset: int, n: nat) {
    days == Report(rows, start, offset, n) && ReadableDays(rows, start + offset, n)
  }

  lemma ReportsNone(rows: seq<Mined>, start: int, offset: int)
    ensures Reports([], rows, start, offset, 0)
  {}

  lemma ReportsStep(
    days: seq<DayInfo>, more: seq<DayInfo>, rows: seq<Mined>, start: int, offset: int, n: nat, next: nat, day: int)
    requires Reports(days, rows, start, offset, n) && next == n + 1 && day == start + DAY * n
    requires AllReadable(OneDay(rows, day + offset)) && more == DayReport(rows, day, offset)
    ensures Reports(days + more, rows, start, offset, next)
  {
    ReportStep(rows, start, offset, n);
    assert day + offset == start + offset + DAY * n;
  }

  /** One pass of the day loop, for day number `n`. */
  method AddDay(rows: seq<Mined>, start: int, offset: int, ghost n: nat, ghost next: nat, day: int, days: seq<DayInfo>)
    returns (ok: bool, r: seq<DayInfo>)
    requires next == n + 1 && day == start + DAY * n && Reports(days, rows, start, offset, n)
    ensures ok ==> Reports(r, rows, start, offset, next)
    ensures !ok ==> !AllReadable(OneDay(rows, day + offset))
  {
    r := days;
    var blocks := OneDay(rows, day + offset);
    var rewards, fees;
    ok, rewards, fees := SumDay(blocks);
    if !ok { return; }
    if rewards != 0 || fees != 0 {
      r := days + [DayInfo(day, rewards, fees, |blocks|)];
    }
    ghost var more := DayReport(rows, day, offset);
    assert r == days + more by { DayReportIs(rows, day, offset, rewards, fees); }
    ReportsStep(days, more, rows, start, offset, n, next, day);
  }

  lemma DayReportIs(rows: seq<Mined>, day: int, offset: int, rewards: int, fees: int)
    requires rewards == Sum(OneDay(rows, day + offset), RewardOf) && fees == Sum(OneDay(rows, day + offset), FeesOf)
    ensures DayReport(rows, day, offset) ==
      if rewards == 0 && fees == 0 then [] else [DayInfo(day, rewards, fees, |OneDay(rows, day + offset)|)]
  {}

  lemma DayCount(start: int, end: int, n: nat, m: nat)
    requires end < start + DAY * m && (m > 0 ==> start + DAY * (m - 1) <= end)
    ensures start + DAY * n <= end <==> n < m
  {}

  /** The loop over the days, of which there are `m`. */
  method AddDays(rows: seq<Mined>, start: int, end: int, offset: int, ghost m: nat) returns (ok: bool, days: seq<DayInfo>)
    requires end < start + DAY * m && (m > 0 ==> start + DAY * (m - 1) <= end)
    ensures ok <==> ReadableDays(rows, start + offset, m)
    ensures ok ==> days == Report(rows, start, offset, m)
  {
    var day := start;
    days := [];
    ghost var n: nat := 0;
    DayCount(start, end, n, m);
    ReportsNone(rows, start, offset);
    while day <= end
      invariant day == start + DAY * n && n <= m && (day <= end <==> n < m)
      invariant Reports(days, rows, start, offset, n)
      decreases end - day
    {
      ghost var next := n + 1;
      ok, days := AddDay(rows, start, offset, n, next, day, days);
      if !ok {
        assert day + offset == start + offset + DAY * n;
        UnreadableDay(rows, start + offset, n, m);
        return;
      }
      day := day + DAY;
      n := next;
      DayCount(start, end, n, m);
    }
    ok := true;
  }

  /**
   get_addr_mining_rewards: fails exactly when some amount in the range cannot
   be read, and otherwise reports the days of the range.
   */
  method RewardsByDay(rows: seq<Mined>, start: int, end: int, offset: int) returns (r: Reply<seq<DayInfo>>)
    ensures r.ParameterError? <==> !Acceptable(start, end)
    ensures r.Success? ==> AllReadable(Between(rows, start + offset, end + 86399 + offset))
    ensures r.InnerError? ==> !AllReadable(Between(rows, start + offset, end + 86399 + offset))
    ensures r.Success? ==> r.value == Report(rows, start, offset, DaysIn(start, end))
  {
    if end - start > 8640000 { return ParameterError; }
    if start % DAY != 0 || end % DAY != 0 { return ParameterError; }
    RangeDays(rows, start, end, offset);
    ReadableDaysIs(rows, start + offset, DaysIn(start, end));
    var ok, days := AddDays(rows, start, end, offset, DaysIn(start, end));
    if !ok { return InnerError; }
    return Success(days);
  }
}
