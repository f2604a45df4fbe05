/** The listing walk shared by every `while keep_running` loop of the
    scrapers: fetch offsets 0, 100, 200, … and stop at the first page whose
    second table has no direct `tr` rows. */
module Paging {
  import opened Outcomes
  import opened Html

  /** `step = 100`: the offset advance between two listing pages. */
  const PageSize: nat := 100

  /** What the loop makes of one fetched listing page. */
  datatype Verdict = Rows(rows: seq<Row>) | Empty | Broken(error: Error)

  /** One loop iteration's checks, in the source's order: the HTTP status,
      the container element, at least two tables, and then the direct rows
      of the second table (none ends the walk). */
  function Examine(fetched: Option<Page>, container: string): (v: Verdict)
    ensures v == Broken(HttpStatus) <==> fetched.None?
    ensures v == Broken(MissingElement) <==> fetched.Some? && container !in fetched.value.sections
    ensures v == Broken(TooFewTables) <==>
              fetched.Some? && container in fetched.value.sections && |fetched.value.sections[container]| < 2
    ensures v == Empty <==>
              fetched.Some? && container in fetched.value.sections && |fetched.value.sections[container]| >= 2
              && fetched.value.sections[container][1] == []
    ensures v.Rows? ==> v.rows != [] && fetched.Some? && container in fetched.value.sections
                        && |fetched.value.sections[container]| >= 2 && v.rows == fetched.value.sections[container][1]
  {
    match fetched
    case None => Broken(HttpStatus)
    case Some(p) =>
      if container !in p.sections then Broken(MissingElement)
      else
        var tables := p.sections[container];
        if |tables| < 2 then Broken(TooFewTables)
        else if tables[1] == [] then Empty
        else Rows(tables[1])
  }

  /** The verdict on the `k`-th page, the one at offset `k * PageSize`. */
  function PageAt(listing: nat -> Option<Page>, container: string, k: nat): Verdict {
    Examine(listing(k * PageSize), container)
  }

  /** The listing has a last page: some page ends the walk. The source loops
      for ever on a listing without one. */
  ghost predicate Finite(listing: nat -> Option<Page>, container: string) {
    exists k: nat :: !PageAt(listing, container, k).Rows?
  }

  /** One iteration's fetch and checks, statement by statement. */
  method ReadListingPage(listing: nat -> Option<Page>, container: string, offset: nat) returns (v: Verdict)
    ensures v == Examine(listing(offset), container)
  {
    var response := listing(offset);
    if response.None? {
      return Broken(HttpStatus);
    }
    if container !in response.value.sections {
      return Broken(MissingElement);
    }
    var tables := response.value.sections[container];
    if |tables| < 2 {
      return Broken(TooFewTables);
    }
    if |tables[1]| == 0 {
      return Empty;
    }
    return Rows(tables[1]);
  }

  /** The rows of pages 0 .. n-1, page after page. */
  function RowsBefore(listing: nat -> Option<Page>, container: string, n: nat): seq<Row> {
    if n == 0 then []
    else
      var v := PageAt(listing, container, n - 1);
      RowsBefore(listing, container, n - 1) + (if v.Rows? then v.rows else [])
  }

  /** The per-row work of a loop body, applied to the rows in order and
      stopped by the first failure. */
  function FoldRows<C, A>(ctx: C, step: (C, A, Row) -> Result<A>, acc: A, rows: seq<Row>): Result<A>
    decreases |rows|
  {
    if rows == [] then Ok(acc)
    else match FoldRows(ctx, step, acc, rows[..|rows| - 1])
      case Err(e) => Err(e)
      case Ok(a) => step(ctx, a, rows[|rows| - 1])
  }

  /** Folding over two blocks of rows is folding over the first and then the second. */
  lemma {:induction false} FoldRowsAppend<C, A>(ctx: C, step: (C, A, Row) -> Result<A>, acc: A, xs: seq<Row>, ys: seq<Row>)
    ensures FoldRows(ctx, step, acc, xs + ys) ==
            match FoldRows(ctx, step, acc, xs)
            case Err(e) => Err(e)
            case Ok(a) => FoldRows(ctx, step, a, ys)
    decreases |ys|
  {
    if ys == [] {
      assert xs + ys == xs;
    } else {
      var zs := xs + ys;
      assert zs[..|zs| - 1] == xs + ys[..|ys| - 1];
      assert zs[|zs| - 1] == ys[|ys| - 1];
      FoldRowsAppend(ctx, step, acc, xs, ys[..|ys| - 1]);
    }
  }

  /** A failure part-way stops the loop body: the rows after it are not handled. */
  lemma FoldRowsFailed<C, A>(ctx: C, step: (C, A, Row) -> Result<A>, acc: A, rows: seq<Row>, i: nat, e: Error)
    requires i <= |rows| && FoldRows(ctx, step, acc, rows[..i]) == Err(e)
    ensures FoldRows(ctx, step, acc, rows) == Err(e)
  {
    assert rows == rows[..i] + rows[i..];
    FoldRowsAppend(ctx, step, acc, rows[..i], rows[i..]);
  }

  /** One more row handled by the loop body. */
  lemma FoldRowsNext<C, A>(ctx: C, step: (C, A, Row) -> Result<A>, acc: A, rows: seq<Row>, i: nat, a: A)
    requires i < |rows| && FoldRows(ctx, step, acc, rows[..i]) == Ok(a)
    ensures FoldRows(ctx, step, acc, rows[..i + 1]) == step(ctx, a, rows[i])
  {
    assert rows[..i + 1][..i] == rows[..i];
  }

  datatype Progress<A> = Going(acc: A) | Done(result: Result<A>)

  /** The paging loop after it has fetched and handled pages 0 .. n-1:
      still going with the accumulated results, or finished with a result.
      A failure keeps nothing of what was accumulated. */
  function Walk<C, A>(listing: nat -> Option<Page>, container: string, ctx: C,
                      step: (C, A, Row) -> Result<A>, init: A, n: nat): Progress<A>
  {
    if n == 0 then Going(init)
    else match Walk(listing, container, ctx, step, init, n - 1)
      case Done(r) => Done(r)
      case Going(acc) => Advance(PageAt(listing, container, n - 1), ctx, step, acc)
  }

  /** One page of the walk: an empty page ends it with what was accumulated,
      a broken one with its error, and a page with rows hands them to the
      loop body. */
  function Advance<C, A>(v: Verdict, ctx: C, step: (C, A, Row) -> Result<A>, acc: A): (p: Progress<A>)
    ensures p.Going? ==> v.Rows?
  {
    match v
    case Empty => Done(Ok(acc))
    case Broken(e) => Done(Err(e))
    case Rows(rows) =>
      match FoldRows(ctx, step, acc, rows)
      case Ok(a) => Going(a)
      case Err(e) => Done(Err(e))
  }

  /** The walk one page further on from a walk still going. */
  lemma WalkNext<C, A>(listing: nat -> Option<Page>, container: string, ctx: C,
                       step: (C, A, Row) -> Result<A>, init: A, n: nat, acc: A)
    requires Walk(listing, container, ctx, step, init, n) == Going(acc)
    ensures Walk(listing, container, ctx, step, init, n + 1) == Advance(PageAt(listing, container, n), ctx, step, acc)
  {
  }

  /** The offsets of the first requests are 0, 100, 200, … */
  predicate IsOffsets(requested: seq<nat>) {
    forall j :: 0 <= j < |requested| ==> requested[j] == j * PageSize
  }

  /** A paging loop that asked for the offsets in `requested` and returned `r`
      behaved as the walk prescribes: it asked for offsets 0, 100, … in order,
      every page before the last one had rows that were all handled, and the
      last page it asked for ended the walk with `r`. */
  ghost predicate Walked<C, A>(listing: nat -> Option<Page>, container: string, ctx: C,
                               step: (C, A, Row) -> Result<A>, init: A, requested: seq<nat>, r: Result<A>)
  {
    |requested| >= 1 && IsOffsets(requested)
    && Walk(listing, container, ctx, step, init, |requested| - 1).Going?
    && Walk(listing, container, ctx, step, init, |requested|) == Done(r)
  }

  /** One turn of a paging loop that has asked for the offsets in
      `requested`: the outcome `p` of the next page either finishes the walk,
      and the loop has then behaved as `Walked` prescribes, or keeps it
      going, which only a page with rows does. */
  lemma WalkTurn<C, A>(listing: nat -> Option<Page>, container: string, ctx: C,
                       step: (C, A, Row) -> Result<A>, init: A, requested: seq<nat>, acc: A, p: Progress<A>)
    requires IsOffsets(requested) && Walk(listing, container, ctx, step, init, |requested|) == Going(acc)
    requires p == Advance(PageAt(listing, container, |requested|), ctx, step, acc)
    ensures p.Done? ==> Walked(listing, container, ctx, step, init, requested + [|requested| * PageSize], p.result)
    ensures p.Going? ==> PageAt(listing, container, |requested|).Rows?
                         && IsOffsets(requested + [|requested| * PageSize])
                         && Walk(listing, container, ctx, step, init, |requested| + 1) == p
  {
    var next := requested + [|requested| * PageSize];
    assert IsOffsets(next) by {
      forall j | 0 <= j < |next| ensures next[j] == j * PageSize {
        if j < |requested| {
          assert next[j] == requested[j];
        }
      }
    }
  }

  /** Once finished, the walk stays finished with the same result. */
  lemma {:induction false} WalkDoneStays<C, A>(listing: nat -> Option<Page>, container: string, ctx: C,
                                               step: (C, A, Row) -> Result<A>, init: A, n: nat, m: nat)
    requires n <= m && Walk(listing, container, ctx, step, init, n).Done?
    ensures Walk(listing, container, ctx, step, init, m) == Walk(listing, container, ctx, step, init, n)
    decreases m - n
  {
    if n < m {
      WalkDoneStays(listing, container, ctx, step, init, n, m - 1);
    }
  }

  /** The number of pages fetched is determined by the listing: a loop that
      was still going after a - 1 pages and finished at page a, and one that
      did so at b, fetched the same number of pages. */
  lemma FetchCountUnique<C, A>(listing: nat -> Option<Page>, container: string, ctx: C,
                               step: (C, A, Row) -> Result<A>, init: A, a: nat, b: nat)
    requires 1 <= a && Walk(listing, container, ctx, step, init, a - 1).Going?
    requires Walk(listing, container, ctx, step, init, a).Done?
    requires 1 <= b && Walk(listing, container, ctx, step, init, b - 1).Going?
    requires Walk(listing, container, ctx, step, init, b).Done?
    ensures a == b
  {
    if a < b {
      WalkDoneStays(listing, container, ctx, step, init, a, b - 1);
    } else if b < a {
      WalkDoneStays(listing, container, ctx, step, init, b, a - 1);
    }
  }

  /** The walk is still going after n pages exactly when each of them had rows
      and their rows, in page-then-row order, were all handled without failure;
      the accumulated value is the fold over all those rows. */
  lemma {:induction false} WalkGoing<C, A>(listing: nat -> Option<Page>, container: string, ctx: C,
                                           step: (C, A, Row) -> Result<A>, init: A, n: nat)
    ensures Walk(listing, container, ctx, step, init, n).Going? <==>
              (forall j :: 0 <= j < n ==> PageAt(listing, container, j).Rows?)
              && FoldRows(ctx, step, init, RowsBefore(listing, container, n)).Ok?
    ensures Walk(listing, container, ctx, step, init, n).Going? ==>
              Walk(listing, container, ctx, step, init, n).acc
              == FoldRows(ctx, step, init, RowsBefore(listing, container, n)).value
  {
    if n > 0 {
      WalkGoing(listing, container, ctx, step, init, n - 1);
      var prev := RowsBefore(listing, container, n - 1);
      var v := PageAt(listing, container, n - 1);
      var w := Walk(listing, container, ctx, step, init, n - 1);
      if v.Rows? {
        assert RowsBefore(listing, container, n) == prev + v.rows;
        FoldRowsAppend(ctx, step, init, prev, v.rows);
        assert (forall j :: 0 <= j < n ==> PageAt(listing, container, j).Rows?)
               <==> (forall j :: 0 <= j < n - 1 ==> PageAt(listing, container, j).Rows?);
        if w.Going? {
          assert Walk(listing, container, ctx, step, init, n) ==
                 match FoldRows(ctx, step, w.acc, v.rows)
                 case Ok(a) => Going(a)
                 case Err(e) => Done(Err(e));
        } else {
          assert Walk(listing, container, ctx, step, init, n) == w;
        }
      } else {
        assert !PageAt(listing, container, n - 1).Rows?;
        assert Walk(listing, container, ctx, step, init, n).Done?;
      }
    }
  }

  /** The walk's outcome at the page that ends it: the first page without
      rows ends it with everything accumulated so far, a broken page with its
      error. */
  lemma WalkEnds<C, A>(listing: nat -> Option<Page>, container: string, ctx: C,
                       step: (C, A, Row) -> Result<A>, init: A, n: nat)
    requires Walk(listing, container, ctx, step, init, n).Going?
    requires !PageAt(listing, container, n).Rows?
    ensures PageAt(listing, container, n) == Empty ==>
              Walk(listing, container, ctx, step, init, n + 1) == Done(Ok(Walk(listing, container, ctx, step, init, n).acc))
    ensures PageAt(listing, container, n).Broken? ==>
              Walk(listing, container, ctx, step, init, n + 1) == Done(Err(PageAt(listing, container, n).error))
  {
  }

  /** A listing of pages with 100, 100 and 0 rows, handled by a step that
      adds one item per row and never fails, is walked in exactly three
      fetches and gives 200 items. */
  lemma ThreePageListing<C, T>(listing: nat -> Option<Page>, container: string, ctx: C,
                               step: (C, seq<T>, Row) -> Result<seq<T>>)
    requires PageAt(listing, container, 0).Rows? && |PageAt(listing, container, 0).rows| == 100
    requires PageAt(listing, container, 1).Rows? && |PageAt(listing, container, 1).rows| == 100
    requires PageAt(listing, container, 2) == Empty
    requires forall acc: seq<T>, row: Row :: step(ctx, acc, row).Ok? && |step(ctx, acc, row).value| == |acc| + 1
    ensures Walk(listing, container, ctx, step, [], 2).Going?
    ensures Walk(listing, container, ctx, step, [], 3).Done?
    ensures Walk(listing, container, ctx, step, [], 3).result.Ok?
    ensures |Walk(listing, container, ctx, step, [], 3).result.value| == 200
  {
    var rows0 := PageAt(listing, container, 0).rows;
    var rows1 := PageAt(listing, container, 1).rows;
    OneItemPerRow(ctx, step, [], rows0);
    var a0 := FoldRows(ctx, step, [], rows0).value;
    assert Walk(listing, container, ctx, step, [], 1) == Going(a0);
    OneItemPerRow(ctx, step, a0, rows1);
    var a1 := FoldRows(ctx, step, a0, rows1).value;
    assert Walk(listing, container, ctx, step, [], 2) == Going(a1);
    assert Walk(listing, container, ctx, step, [], 3) == Done(Ok(a1));
  }

  /** A step that adds one item per row and never fails adds one item per row. */
  lemma {:induction false} OneItemPerRow<C, T>(ctx: C, step: (C, seq<T>, Row) -> Result<seq<T>>, acc: seq<T>, rows: seq<Row>)
    requires forall a: seq<T>, row: Row :: step(ctx, a, row).Ok? && |step(ctx, a, row).value| == |a| + 1
    ensures FoldRows(ctx, step, acc, rows).Ok?
    ensures |FoldRows(ctx, step, acc, rows).value| == |acc| + |rows|
    decreases |rows|
  {
    if rows != [] {
      var init := rows[..|rows| - 1];
      OneItemPerRow(ctx, step, acc, init);
      var a := FoldRows(ctx, step, acc, init).value;
      OneItemStep(ctx, step, a, rows[|rows| - 1]);
    }
  }

  /** The hypothesis of OneItemPerRow at one accumulator and one row. */
  lemma OneItemStep<C, T>(ctx: C, step: (C, seq<T>, Row) -> Result<seq<T>>, a: seq<T>, row: Row)
    requires forall b: seq<T>, r: Row :: step(ctx, b, r).Ok? && |step(ctx, b, r).value| == |b| + 1
    ensures step(ctx, a, row).Ok? && |step(ctx, a, row).value| == |a| + 1
  {
  }
}
