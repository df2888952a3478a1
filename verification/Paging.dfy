/**
 The paged queries: recent blocks, transactions of an address by type, and the
 merge of pending transactions with database rows into one paged list.
 */
module Paging {
  import opened Common
  import opened Chain
  import opened Tables
  import opened Follower
  import opened Runs

  /** `OFFSET offset LIMIT size` over an ordered result. */
  function Slice<T>(rows: seq<T>, offset: nat, size: nat): (r: seq<T>)
    ensures |r| <= size
  {
    if offset >= |rows| then []
    else if offset + size <= |rows| then rows[offset..offset + size]
    else rows[offset..]
  }

  /** Page `index` (from 1) of one list. */
  function PageOf<T>(all: seq<T>, index: int, size: int): (r: seq<T>)
    requires index >= 1 && size > 0
    ensures |r| <= size
  {
    Slice(all, (index - 1) * size, size)
  }

  /*--- Transactions of an address by type ---*/

  datatype Query = All | FromMe | ToMe | Mortgage | Redeem | MortgageOrRedeem

  /** The query a requested type stands for; other types are refused. */
  function QueryOf(txtype: int): Option<Query> {
    if txtype == 0 then Some(All)
    else if txtype == 3 then Some(Mortgage)
    else if txtype == 4 then Some(Redeem)
    else if txtype == 5 then Some(MortgageOrRedeem)
    else if txtype == 1 then Some(FromMe)
    else if txtype == 2 then Some(ToMe)
    else None
  }

  /** The WHERE clause of each query. */
  predicate Selects(row: TxRow, addr: string, q: Query) {
    var mine := row.data.from == addr || row.data.to == addr;
    row.status == Normal &&
    match q
    case All => mine
    case FromMe => row.data.from == addr && row.data.kind == TX_UNDEFINED
    case ToMe => row.data.to == addr && row.data.kind == TX_UNDEFINED
    case Mortgage => mine && row.data.kind == TX_MORTGAGE
    case Redeem => mine && row.data.kind == TX_REDEEM
    case MortgageOrRedeem => mine && (row.data.kind == TX_MORTGAGE || row.data.kind == TX_REDEEM)
  }

  /** `SELECT .. WHERE ..` over a table in its order. */
  function Where(table: seq<TxRow>, addr: string, q: Query): seq<TxRow> {
    if table == [] then []
    else
      var rest := Where(table[1..], addr, q);
      if Selects(table[0], addr, q) then [table[0]] + rest else rest
  }

  /** The result has exactly the rows the clause selects, each as often as the table has it. */
  lemma {:induction false} WhereExact(table: seq<TxRow>, addr: string, q: Query, row: TxRow)
    ensures multiset(Where(table, addr, q))[row] == if Selects(row, addr, q) then multiset(table)[row] else 0
  {
    if table != [] {
      WhereExact(table[1..], addr, q, row);
      assert table == [table[0]] + table[1..];
    }
  }

  /** What a requested type lists, by the numbers of the request and of F_tx_type. */
  predicate Wanted(row: TxRow, addr: string, txtype: int) {
    var from, to, kind := row.data.from == addr, row.data.to == addr, row.data.kind;
    row.status == Normal && (
      || (txtype == 0 && (from || to))
      || (txtype == 1 && from && kind == 0)
      || (txtype == 2 && to && kind == 0)
      || (txtype == 3 && (from || to) && kind == 3)
      || (txtype == 4 && (from || to) && kind == 4)
      || (txtype == 5 && (from || to) && (kind == 3 || kind == 4)))
  }

  function Clause(addr: string, txtype: int): TxRow -> bool {
    row => Wanted(row, addr, txtype)
  }

  /** `idx` are the positions of all elements that satisfy `want`, in order. */
  ghost predicate Positions<T(!new)>(all: seq<T>, want: T -> bool, idx: seq<nat>) {
    && (forall i | 0 <= i < |idx| :: idx[i] < |all| && want(all[idx[i]]))
    && (forall i, j | 0 <= i < j < |idx| :: idx[i] < idx[j])
    && (forall k | 0 <= k < |all| && want(all[k]) :: k in idx)
  }

  function Pick<T>(all: seq<T>, idx: seq<nat>): (rows: seq<T>)
    requires forall i | 0 <= i < |idx| :: idx[i] < |all|
    ensures |rows| == |idx| && forall i | 0 <= i < |idx| :: rows[i] == all[idx[i]]
  {
    seq(|idx|, i requires 0 <= i < |idx| => all[idx[i]])
  }

  function Shifted(idx: seq<nat>): (r: seq<nat>)
    ensures |r| == |idx| && forall i | 0 <= i < |idx| :: r[i] == idx[i] + 1
  {
    seq(|idx|, i requires 0 <= i < |idx| => idx[i] + 1)
  }

  /** The positions in the table of all rows the type wants, in table order. */
  ghost predicate IsSelection(table: seq<TxRow>, addr: string, txtype: int, idx: seq<nat>) {
    Positions(table, Clause(addr, txtype), idx)
  }

  lemma ShiftedContains(idx: seq<nat>, k: nat)
    ensures k + 1 in Shifted(idx) <==> k in idx
  {
    if k in idx {
      var i :| 0 <= i < |idx| && idx[i] == k;
      assert Shifted(idx)[i] == k + 1;
    }
  }

  /** The positions found in the rest of a list are those of the list after its first element. */
  lemma PositionsLater<T(!new)>(all: seq<T>, want: T -> bool, idx: seq<nat>)
    requires all != [] && Positions(all[1..], want, idx)
    ensures forall i | 0 <= i < |idx| :: 0 < Shifted(idx)[i] < |all| && want(all[Shifted(idx)[i]])
    ensures forall i, j | 0 <= i < j < |idx| :: Shifted(idx)[i] < Shifted(idx)[j]
    ensures forall k | 0 < k < |all| && want(all[k]) :: k in Shifted(idx)
    ensures Pick(all, Shifted(idx)) == Pick(all[1..], idx)
  {
    var rest := all[1..];
    forall i | 0 <= i < |idx| ensures 0 < Shifted(idx)[i] < |all| && all[Shifted(idx)[i]] == rest[idx[i]] {
      assert rest[idx[i]] == all[idx[i] + 1];
    }
    forall k | 0 < k < |all| && want(all[k]) ensures k in Shifted(idx) {
      assert rest[k - 1] == all[k];
      ShiftedContains(idx, k - 1);
    }
  }

  lemma PickCons<T>(all: seq<T>, later: seq<nat>)
    requires all != [] && forall i | 0 <= i < |later| :: later[i] < |all|
    ensures forall i | 0 <= i < |[0] + later| :: ([0] + later)[i] < |all|
    ensures Pick(all, [0] + later) == [all[0]] + Pick(all, later)
  {}

  lemma PositionsFirst<T(!new)>(all: seq<T>, want: T -> bool, later: seq<nat>)
    requires all != [] && want(all[0])
    requires forall i | 0 <= i < |later| :: 0 < later[i] < |all| && want(all[later[i]])
    requires forall i, j | 0 <= i < j < |later| :: later[i] < later[j]
    requires forall k | 0 < k < |all| && want(all[k]) :: k in later
    ensures Positions(all, want, [0] + later)
  {
    var more := [0] + later;
    assert more[0] == 0 && forall i | 0 < i < |more| :: more[i] == later[i - 1];
    forall k | 0 <= k < |all| && want(all[k]) ensures k in more {
      if k == 0 { assert more[0] == 0; }
    }
  }

  lemma PositionsCons<T(!new)>(all: seq<T>, want: T -> bool, idx: seq<nat>) returns (more: seq<nat>)
    requires all != [] && Positions(all[1..], want, idx)
    ensures Positions(all, want, more)
    ensures Pick(all, more) == (if want(all[0]) then [all[0]] else []) + Pick(all[1..], idx)
  {
    more := Shifted(idx);
    PositionsLater(all, want, idx);
    if want(all[0]) {
      PositionsFirst(all, want, more);
      PickCons(all, more);
      more := [0] + more;
    }
  }

  lemma SelectsWanted(row: TxRow, addr: string, txtype: int)
    ensures QueryOf(txtype).Some? <==> 0 <= txtype <= 5
    ensures QueryOf(txtype).Some? ==> (Selects(row, addr, QueryOf(txtype).value) <==> Wanted(row, addr, txtype))
  {}

  lemma AnswerCons(table: seq<TxRow>, addr: string, txtype: int)
    requires table != [] && 0 <= txtype <= 5
    ensures Answer(table, addr, txtype) ==
      (if Clause(addr, txtype)(table[0]) then [table[0]] else []) + Answer(table[1..], addr, txtype)
  {
    SelectsWanted(table[0], addr, txtype);
  }

  /** A query lists the rows wanted, all of them and in table order. */
  lemma {:induction false} AnswerSelection(table: seq<TxRow>, addr: string, txtype: int) returns (idx: seq<nat>)
    requires 0 <= txtype <= 5
    ensures IsSelection(table, addr, txtype, idx) && Pick(table, idx) == Answer(table, addr, txtype)
  {
    idx := [];
    if table != [] {
      var rest := AnswerSelection(table[1..], addr, txtype);
      idx := PositionsCons(table, Clause(addr, txtype), rest);
      AnswerCons(table, addr, txtype);
    }
  }

  /** The rows of a known type; none for a type the query refuses. */
  function Answer(table: seq<TxRow>, addr: string, txtype: int): seq<TxRow> {
    match QueryOf(txtype) case Some(q) => Where(table, addr, q) case None => []
  }

  /*--- Pending transactions merged with database rows ---*/

  datatype Reply<T> = ParamError | QueryError | Panicked | Listed(count: int, items: seq<T>)

  /** Appending the second list element by element. */
  method Concat<T>(first: seq<T>, second: seq<T>) returns (r: seq<T>)
    ensures r == first + second
  {
    r := first;
    for i := 0 to |second|
      invariant r == first + second[..i]
    {
      r := r + [second[i]];
    }
    assert second[..|second|] == second;
  }

  /** GetTransactionsByAddrAndType over the table in the order of the query; an empty page is not queried. */
  method QueryRows(table: seq<TxRow>, addr: string, txtype: int, offset: int, size: int) returns (r: Reply<TxRow>)
    requires offset >= 0
    ensures size <= 0 ==> r == Listed(0, [])
    ensures size > 0 && QueryOf(txtype).None? ==> r == QueryError
    ensures size > 0 && QueryOf(txtype).Some? ==>
      r == Listed(|Answer(table, addr, txtype)|, Slice(Answer(table, addr, txtype), offset, size))
  {
    if size <= 0 { return Listed(0, []); }
    var q := QueryOf(txtype);
    if q.None? { return QueryError; }
    var rows := Where(table, addr, q.value);
    return Listed(|rows|, Slice(rows, offset, size));
  }

  /** The list a page shows, for `pending` ahead of `rows`; `None` is the slice panic. */
  function MergedPage<T>(pending: seq<T>, rows: seq<T>, index: int, size: int): Option<seq<T>>
    requires index >= 1 && size > 0
  {
    var offset := (index - 1) * size;
    if |pending| <= offset then Some(Slice(rows, offset - |pending|, size))
    else if |pending| <= size then Some(pending + Slice(rows, 0, size - |pending|))
    else if |pending| <= offset + size then Some(pending)
    else None
  }

  /** The page has room for database rows, so the database is asked for rows and their count. */
  predicate LeavesRoom(n: nat, index: int, size: int) {
    n <= (index - 1) * size || n < size
  }

  lemma KnownTypes(txtype: int)
    ensures QueryOf(txtype).Some? <==> 0 <= txtype <= 5
  {}

  /** The reply counts all rows the type wants and lists the requested page of them, in table order. */
  ghost predicate ListsSelection(
    table: seq<TxRow>, addr: string, txtype: int, index: int, size: int, r: Reply<TxRow>)
    requires index >= 1 && size > 0
  {
    r.Listed? && exists idx :: IsSelection(table, addr, txtype, idx) && IsPage(r, Pick(table, idx), index, size)
  }

  predicate IsPage<T(==)>(r: Reply<T>, all: seq<T>, index: int, size: int)
    requires index >= 1 && size > 0
  {
    r == Listed(|all|, PageOf(all, index, size))
  }

  lemma SelectionListed(table: seq<TxRow>, addr: string, txtype: int, index: int, size: int, r: Reply<TxRow>)
    requires index >= 1 && size > 0 && 0 <= txtype <= 5 && IsPage(r, Answer(table, addr, txtype), index, size)
    ensures ListsSelection(table, addr, txtype, index, size, r)
  {
    var idx := AnswerSelection(table, addr, txtype);
  }

  /** Get_by_addr_and_type with its branches on offset and size. */
  method GetByAddrAndType(
    pending: seq<TxRow>, table: seq<TxRow>, addr: string, txtype: int, pageIndex: int, pageSize: int)
    returns (r: Reply<TxRow>)
    ensures pageIndex < 1 || pageSize <= 0 <==> r.ParamError?
    ensures pageIndex >= 1 && pageSize > 0 && QueryOf(txtype).Some? ==>
      var merged := MergedPage(pending, Answer(table, addr, txtype), pageIndex, pageSize);
      if merged.None? then r == Panicked else r.Listed? && r.items == merged.value
    ensures pageIndex >= 1 && pageSize > 0 && r.Listed? ==>
      r.count == if LeavesRoom(|pending|, pageIndex, pageSize) then |Answer(table, addr, txtype)| else 0
    ensures r == QueryError <==>
      pageIndex >= 1 && pageSize > 0 && QueryOf(txtype).None? && LeavesRoom(|pending|, pageIndex, pageSize)
    ensures pageIndex >= 1 && pageSize > 0 ==>
      var offset := (pageIndex - 1) * pageSize;
      && (|pending| > offset + pageSize <==> r == Panicked)
      && (offset < |pending| <= offset + pageSize && r.Listed? ==> pending <= r.items)
      && (offset < |pending| && pageSize <= |pending| <= offset + pageSize ==> r == Listed(0, pending))
    ensures pageIndex >= 1 && pageSize > 0 && pending == [] && 0 <= txtype <= 5 ==>
      ListsSelection(table, addr, txtype, pageIndex, pageSize, r)
    ensures pageIndex >= 1 && pageSize > 0 && pending == [] && !(0 <= txtype <= 5) ==> r == QueryError
  {
    if pageIndex < 1 || pageSize <= 0 { return ParamError; }
    var all: seq<TxRow> := [];
    var offset := (pageIndex - 1) * pageSize;
    var size := pageSize;
    if |pending| <= offset {
      offset := offset - |pending|;
    } else if |pending| <= offset + size {
      WholePendingPage(|pending|, offset, size, pageIndex, pageSize);
      offset := 0;
      size := size - |pending|;
      all := pending;
    } else {
      // offset := 0 and size := offset + size - |pending| make the upper slice bound negative.
      WholePendingPage(|pending|, offset, size, pageIndex, pageSize);
      return Panicked;
    }
    r := QueryRows(table, addr, txtype, offset, size);
    if r.Listed? {
      var items := Concat(all, r.items);
      r := Listed(r.count, items);
    }
    KnownTypes(txtype);
    if pending == [] && 0 <= txtype <= 5 {
      SelectionListed(table, addr, txtype, pageIndex, pageSize, r);
    }
  }

  /** More pending than a page, reached at a positive offset, is more than the page size. */
  lemma WholePendingPage(n: nat, offset: int, size: int, index: int, pageSize: int)
    requires index >= 1 && pageSize > 0 && offset == (index - 1) * pageSize && size == pageSize && n > offset
    ensures offset >= 0 && (offset > 0 ==> n > pageSize) && (offset == 0 <==> index == 1)
  {
    if index > 1 {
      assert (index - 1) * pageSize == (index - 2) * pageSize + pageSize;
    }
  }

  /** A slice across the border of two lists. */
  lemma SliceConcat<T>(a: seq<T>, b: seq<T>, offset: nat, size: nat)
    ensures |a| <= offset ==> Slice(a + b, offset, size) == Slice(b, offset - |a|, size)
    ensures offset == 0 && |a| <= size ==> Slice(a + b, offset, size) == a + Slice(b, 0, size - |a|)
  {
    if |a| <= offset {
      SliceAfter(a, b, offset, size);
    }
    if offset == 0 && |a| <= size {
      SliceAcross(a, b, size);
    }
  }

  lemma SliceAfter<T>(a: seq<T>, b: seq<T>, offset: nat, size: nat)
    requires |a| <= offset
    ensures Slice(a + b, offset, size) == Slice(b, offset - |a|, size)
  {
    var k := offset - |a|;
    if k < |b| {
      assert (a + b)[offset..] == b[k..];
      if k + size <= |b| {
        assert (a + b)[offset..offset + size] == b[k..k + size];
      }
    }
  }

  lemma SliceAcross<T>(a: seq<T>, b: seq<T>, size: nat)
    requires |a| <= size
    ensures Slice(a + b, 0, size) == a + Slice(b, 0, size - |a|)
  {
    var k := size - |a|;
    if k <= |b| {
      assert (a + b)[..size] == a + b[..k];
    } else {
      assert (a + b)[0..] == a + b;
    }
  }

  /**
   One page is right exactly when all pending transactions lie before it, or it
   is the first page and they fit on it.
   */
  lemma PageRightIff<T>(pending: seq<T>, rows: seq<T>, index: int, size: int)
    requires index >= 1 && size > 0
    ensures MergedPage(pending, rows, index, size) == Some(PageOf(pending + rows, index, size)) <==>
      |pending| <= (index - 1) * size || (index == 1 && |pending| <= size)
  {
    var offset := (index - 1) * size;
    assert offset >= 0;
    SliceConcat(pending, rows, offset, size);
    if |pending| > offset {
      WholePendingPage(|pending|, offset, size, index, size);
    }
  }

  ghost predicate PageRight<T>(pending: seq<T>, rows: seq<T>, index: int, size: int)
    requires index >= 1 && size > 0
  {
    MergedPage(pending, rows, index, size) == Some(PageOf(pending + rows, index, size))
  }

  /** Every page is right exactly when the pending list fits on one page. */
  lemma AllPagesRightIff<T>(pending: seq<T>, rows: seq<T>, size: int)
    requires size > 0
    ensures (forall i | i >= 1 :: PageRight(pending, rows, i, size)) <==> |pending| <= size
  {
    if |pending| <= size {
      forall i | i >= 1 ensures PageRight(pending, rows, i, size) {
        LaterPage(i, size);
        PageRightIff(pending, rows, i, size);
      }
    } else {
      PageRightIff(pending, rows, 1, size);
      assert !PageRight(pending, rows, 1, size);
    }
  }

  lemma LaterPage(index: int, size: int)
    requires index >= 1 && size > 0
    ensures index == 1 || (index - 1) * size >= size
  {}

  /** The first `n` pages, one after the other. */
  function FirstPages<T>(all: seq<T>, n: nat, size: int): seq<T>
    requires size > 0
  {
    if n == 0 then [] else FirstPages(all, n - 1, size) + PageOf(all, n, size)
  }

  /** Pages neither skip nor repeat: the first `n` are the first n * size elements of the list, or all of it. */
  lemma {:induction false} PagesTile<T>(all: seq<T>, n: nat, size: int)
    requires size > 0
    ensures FirstPages(all, n, size) == all[..if n * size < |all| then n * size else |all|]
  {
    if n > 0 {
      PagesTile(all, n - 1, size);
      var k := (n - 1) * size;
      assert k >= 0 && n * size == k + size;
      SlicesJoin(all, k, size);
    }
  }

  lemma SlicesJoin<T>(all: seq<T>, k: nat, size: nat)
    ensures all[..if k < |all| then k else |all|] + Slice(all, k, size) ==
      all[..if k + size < |all| then k + size else |all|]
  {}

  lemma DivMod(p: nat, size: int)
    requires size > 0
    ensures p == (p / size) * size + p % size && 0 <= p % size < size
  {}

  lemma OnItsPage<T>(all: seq<T>, size: int, q: nat, r: nat)
    requires size > 0 && r < size && q * size + r < |all|
    ensures all[q * size + r] in PageOf(all, q + 1, size)
  {
    var offset := q * size;
    assert PageOf(all, q + 1, size) == Slice(all, offset, size);
    assert Slice(all, offset, size)[r] == all[offset + r];
  }

  lemma PageWithin<T>(all: seq<T>, index: int, size: int, x: T)
    requires index >= 1 && size > 0
    ensures x in PageOf(all, index, size) ==> x in all
  {}

  /** Every element of a list is on some page, and pages hold nothing else. */
  lemma OnSomePage<T>(all: seq<T>, size: int, x: T)
    requires size > 0
    ensures (exists i :: i >= 1 && x in PageOf(all, i, size)) <==> x in all
  {
    if x in all {
      var p :| 0 <= p < |all| && all[p] == x;
      var q := p / size;
      DivMod(p, size);
      OnItsPage(all, size, q, p % size);
      assert q + 1 >= 1 && x in PageOf(all, q + 1, size);
    } else {
      forall i | i >= 1 ensures x !in PageOf(all, i, size) {
        PageWithin(all, i, size, x);
      }
    }
  }

  /** Over all pages a type lists exactly the rows of the table it wants. */
  lemma ListedOnSomePage(table: seq<TxRow>, addr: string, txtype: int, idx: seq<nat>, size: int, row: TxRow)
    requires IsSelection(table, addr, txtype, idx) && size > 0
    ensures (exists i :: i >= 1 && row in PageOf(Pick(table, idx), i, size)) <==> row in table && Wanted(row, addr, txtype)
  {
    OnSomePage(Pick(table, idx), size, row);
    if row in table && Wanted(row, addr, txtype) {
      var k :| 0 <= k < |table| && table[k] == row;
      var i :| 0 <= i < |idx| && idx[i] == k;
      assert Pick(table, idx)[i] == row;
    }
  }

  /*--- Recent blocks ---*/

  /** `SELECT .. WHERE F_status = NORMAL ORDER BY F_block DESC`. */
  ghost predicate IsListing(s: Store, rows: seq<Hash>) {
    && (forall i | 0 <= i < |rows| :: rows[i] in s.blocks && s.blocks[rows[i]].status == Normal)
    && (forall k | k in s.blocks && s.blocks[k].status == Normal :: k in rows)
    && (forall i, j | 0 <= i < j < |rows| :: rows[i] != rows[j] && s.blocks[rows[i]].height >= s.blocks[rows[j]].height)
  }

  lemma ListingDescends(s: Store, rows: seq<Hash>, i: int, j: int)
    requires Unique(s) && IsListing(s, rows) && 0 <= i < j < |rows|
    ensures s.blocks[rows[i]].height > s.blocks[rows[j]].height
  {
    assert IsNormal(s, rows[i], s.blocks[rows[i]].height);
    assert IsNormal(s, rows[j], s.blocks[rows[j]].height);
  }

  lemma IndexOfHeight(s: Store, rows: seq<Hash>, m: int, h: int) returns (i: nat)
    requires Unique(s) && IsListing(s, rows) && Tower(s, m) && 0 <= h <= m
    ensures i < |rows| && s.blocks[rows[i]].height == h
  {
    assert IsNormal(s, At(s, h).value, h);
    i :| 0 <= i < |rows| && rows[i] == At(s, h).value;
  }

  lemma RowInTower(s: Store, rows: seq<Hash>, m: int, i: nat)
    requires IsListing(s, rows) && Tower(s, m) && i < |rows|
    ensures 0 <= s.blocks[rows[i]].height <= m
  {
    var h := s.blocks[rows[i]].height;
    assert IsNormal(s, rows[i], h);
    assert At(s, h).Some?;
  }

  /** When the NORMAL rows are the chain 0..m, row i of the listing is height m - i. */
  lemma {:induction false} ListingHeight(s: Store, rows: seq<Hash>, m: int, i: nat)
    requires Unique(s) && IsListing(s, rows) && Tower(s, m) && i < |rows|
    ensures s.blocks[rows[i]].height == m - i
    decreases i
  {
    RowInTower(s, rows, m, i);
    if i > 0 {
      ListingHeight(s, rows, m, i - 1);
      ListingDescends(s, rows, i - 1, i);
    }
    if s.blocks[rows[i]].height < m - i {
      var j := IndexOfHeight(s, rows, m, m - i);
      if j < i {
        ListingHeight(s, rows, m, j);
      } else if i < j {
        ListingDescends(s, rows, i, j);
      }
    }
  }

  /** ... and the count is m + 1. */
  lemma ListingLength(s: Store, rows: seq<Hash>, m: int)
    requires Unique(s) && IsListing(s, rows) && Tower(s, m) && m >= -1
    ensures |rows| == m + 1
  {
    if |rows| > m + 1 {
      ListingHeight(s, rows, m, m + 1);
      RowInTower(s, rows, m, m + 1);
    }
    if |rows| <= m {
      var j := IndexOfHeight(s, rows, m, m - |rows|);
      ListingHeight(s, rows, m, j);
    }
  }

  /** Get_Blocks: the number of NORMAL rows and the heights shown on a page. */
  method GetBlocks(heights: seq<int>, pageIndex: int, pageSize: int) returns (r: Reply<int>)
    ensures pageIndex < 1 || pageSize <= 0 <==> r.ParamError?
    ensures pageIndex >= 1 && pageSize > 0 ==> r == Listed(|heights|, PageOf(heights, pageIndex, pageSize))
  {
    if pageIndex < 1 || pageSize <= 0 { return ParamError; }
    assert (pageIndex - 1) * pageSize >= 0;
    var offset := (pageIndex - 1) * pageSize;
    var rows := Slice(heights, offset, pageSize);
    var blocks: seq<int> := [];
    for i := 0 to |rows|
      invariant blocks == rows[..i]
    {
      blocks := blocks + [rows[i]];
    }
    return Listed(|heights|, blocks);
  }

  function Heights(s: Store, rows: seq<Hash>): (hs: seq<int>)
    requires forall i | 0 <= i < |rows| :: rows[i] in s.blocks
    ensures |hs| == |rows|
  {
    seq(|rows|, i requires 0 <= i < |rows| => s.blocks[rows[i]].height)
  }

  /**
   Block paging agrees with the synced chain: after any run whose gateway never
   reports below the cursor, the count is m + 1 and page `index` lists heights
   m - (index - 1) * size downward, stopping at 0, each once.
   */
  lemma BlockPaging(trace: seq<Step>, u: Universe, rows: seq<Hash>, index: int, size: int) returns (m: int)
    requires BlocksConsistent(u) && ValidRun(Fresh, trace, u) && ShrinkFree(Fresh, trace)
    requires forall step | step in trace :: DropSaved(step) && SeesOneChain(step)
    requires IsListing(Run(Fresh, trace).store, rows) && index >= 1 && size > 0
    ensures var st := Run(Fresh, trace);
      var top := m - (index - 1) * size;
      var page := PageOf(Heights(st.store, rows), index, size);
      && st.cursor - 1 <= m <= st.cursor + 1
      && |rows| == m + 1
      && |page| == (if top + 1 <= 0 then 0 else if top + 1 < size then top + 1 else size)
      && forall i | 0 <= i < |page| :: page[i] == top - i
  {
    m := CrashRestartSafety(trace, u);
    UniquenessAlways(trace, u);
    var s := Run(Fresh, trace).store;
    assert Tower(s, m);
    ListingLength(s, rows, m);
    forall i | 0 <= i < |rows| ensures Heights(s, rows)[i] == m - i {
      ListingHeight(s, rows, m, i);
    }
    DescendingPage(Heights(s, rows), m, (index - 1) * size, size);
  }

  lemma DescendingPage(hs: seq<int>, m: int, offset: int, size: int)
    requires |hs| == m + 1 && offset >= 0 && size > 0 && forall i | 0 <= i < |hs| :: hs[i] == m - i
    ensures var page := Slice(hs, offset, size);
      var top := m - offset;
      && |page| == (if top + 1 <= 0 then 0 else if top + 1 < size then top + 1 else size)
      && forall i | 0 <= i < |page| :: page[i] == top - i
  {}

  /*--- How the type queries relate ---*/

  function Rows(s: Store, addr: string, q: Query): set<Hash> {
    set t | t in s.txs && Selects(s.txs[t], addr, q)
  }

  /** Transfers from an address to itself. */
  function SelfTransfers(s: Store, addr: string): set<Hash> {
    set t | t in s.txs && Selects(s.txs[t], addr, FromMe) && s.txs[t].data.to == addr
  }

  lemma SplitContractCalls(s: Store, addr: string)
    ensures |Rows(s, addr, MortgageOrRedeem)| == |Rows(s, addr, Mortgage)| + |Rows(s, addr, Redeem)|
  {
    assert Rows(s, addr, MortgageOrRedeem) == Rows(s, addr, Mortgage) + Rows(s, addr, Redeem);
    assert Rows(s, addr, Mortgage) !! Rows(s, addr, Redeem);
  }

  ghost predicate TypesKnown(s: Store) {
    forall t | t in s.txs :: s.txs[t].data.kind in {TX_UNDEFINED, TX_MORTGAGE, TX_REDEEM}
  }

  lemma AllIsUnion(s: Store, addr: string)
    requires TypesKnown(s)
    ensures Rows(s, addr, All) == Rows(s, addr, FromMe) + Rows(s, addr, ToMe) + Rows(s, addr, MortgageOrRedeem)
    ensures Rows(s, addr, FromMe) + Rows(s, addr, ToMe) !! Rows(s, addr, MortgageOrRedeem)
    ensures Rows(s, addr, FromMe) * Rows(s, addr, ToMe) == SelfTransfers(s, addr)
  {}

  lemma SplitAll(s: Store, addr: string)
    requires TypesKnown(s)
    ensures |Rows(s, addr, All)| ==
      |Rows(s, addr, FromMe)| + |Rows(s, addr, ToMe)| - |SelfTransfers(s, addr)| + |Rows(s, addr, MortgageOrRedeem)|
  {
    AllIsUnion(s, addr);
    UnionSize(Rows(s, addr, FromMe), Rows(s, addr, ToMe), Rows(s, addr, MortgageOrRedeem));
  }

  lemma UnionSize(a: set<Hash>, b: set<Hash>, c: set<Hash>)
    requires a + b !! c
    ensures |a + b + c| == |a| + |b| - |a * b| + |c|
  {}

  /*--- The counts the handler reports ---*/

  /** The table is the store's transaction rows, each once, in some order. */
  ghost predicate IsTable(s: Store, table: seq<TxRow>) {
    && (forall row | row in table :: row.hash in s.txs && s.txs[row.hash] == row)
    && (forall t | t in s.txs :: s.txs[t] in table && s.txs[t].hash == t)
    && (forall i, j | 0 <= i < j < |table| :: table[i].hash != table[j].hash)
  }

  function Hashes(rows: seq<TxRow>): set<Hash> {
    set row | row in rows :: row.hash
  }

  ghost predicate Distinct(rows: seq<TxRow>) {
    forall i, j | 0 <= i < j < |rows| :: rows[i].hash != rows[j].hash
  }

  lemma {:induction false} DistinctCount(rows: seq<TxRow>)
    requires Distinct(rows)
    ensures |Hashes(rows)| == |rows|
  {
    if rows != [] {
      var rest := rows[1..];
      DistinctCount(rest);
      assert Hashes(rows) == Hashes(rest) + {rows[0].hash} by {
        assert rows == [rows[0]] + rest;
      }
      assert rows[0].hash !in Hashes(rest);
    }
  }

  lemma {:induction false} WhereMembers(table: seq<TxRow>, addr: string, q: Query, row: TxRow)
    ensures row in Where(table, addr, q) <==> row in table && Selects(row, addr, q)
  {
    if table != [] {
      WhereMembers(table[1..], addr, q, row);
      assert table == [table[0]] + table[1..];
    }
  }

  lemma {:induction false} WhereDistinct(table: seq<TxRow>, addr: string, q: Query)
    requires Distinct(table)
    ensures Distinct(Where(table, addr, q))
  {
    if table != [] {
      var first, rest := table[0], Where(table[1..], addr, q);
      WhereDistinct(table[1..], addr, q);
      forall i | 0 <= i < |rest| ensures rest[i].hash != first.hash {
        WhereMembers(table[1..], addr, q, rest[i]);
      }
    }
  }

  /** The count a query reports is the number of rows it selects. */
  lemma WhereCount(s: Store, table: seq<TxRow>, addr: string, q: Query)
    requires IsTable(s, table)
    ensures |Where(table, addr, q)| == |Rows(s, addr, q)|
  {
    var rows := Where(table, addr, q);
    WhereDistinct(table, addr, q);
    DistinctCount(rows);
    forall t ensures t in Hashes(rows) <==> t in Rows(s, addr, q) {
      if t in Rows(s, addr, q) {
        WhereMembers(table, addr, q, s.txs[t]);
      }
      if t in Hashes(rows) {
        var row :| row in rows && row.hash == t;
        WhereMembers(table, addr, q, row);
      }
    }
    assert Hashes(rows) == Rows(s, addr, q);
  }

  /** The rows with both parties the address, as FROM_ME and TO_ME both list them. */
  lemma SplitCounts(s: Store, table: seq<TxRow>, addr: string)
    requires IsTable(s, table) && TypesKnown(s)
    ensures |Answer(table, addr, 0)| ==
      |Answer(table, addr, 1)| + |Answer(table, addr, 2)| - |SelfTransfers(s, addr)| + |Answer(table, addr, 5)|
    ensures |Answer(table, addr, 5)| == |Answer(table, addr, 3)| + |Answer(table, addr, 4)|
  {
    WhereCount(s, table, addr, All);
    WhereCount(s, table, addr, FromMe);
    WhereCount(s, table, addr, ToMe);
    WhereCount(s, table, addr, Mortgage);
    WhereCount(s, table, addr, Redeem);
    WhereCount(s, table, addr, MortgageOrRedeem);
    SplitAll(s, addr);
    SplitContractCalls(s, addr);
  }

  /**
   The type queries split the full query, on the tables of any run, whatever
   the order of the rows: the count reported for ALL is that of FROM_ME and
   TO_ME, less the self-transfers counted twice, plus the contract calls, which
   are the mortgages and the redemptions.
   */
  lemma TypeQueriesSplit(trace: seq<Step>, table: seq<TxRow>, addr: string)
    requires IsTable(Run(Fresh, trace).store, table)
    ensures |Answer(table, addr, 0)| ==
      |Answer(table, addr, 1)| + |Answer(table, addr, 2)| - |SelfTransfers(Run(Fresh, trace).store, addr)|
        + |Answer(table, addr, 5)|
    ensures |Answer(table, addr, 5)| == |Answer(table, addr, 3)| + |Answer(table, addr, 4)|
  {
    ColumnsRun(Fresh, trace);
    assert TypesKnown(Run(Fresh, trace).store);
    SplitCounts(Run(Fresh, trace).store, table, addr);
  }
}
