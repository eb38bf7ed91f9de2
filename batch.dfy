/**
 * The re-pricing action: read the stored rates, fetch the tagged products
 * page by page, plan each product's price write, issue it, and count the
 * writes that come back without user errors.
 *
 * The remote product API is not called: the responses it gives are inputs.
 * The i-th page response answers the i-th page request, and every product
 * edge carries the outcome its price write would get.
 */
module Batch {
  import opened Wrappers
  import opened Pricing
  import opened Catalog

  /** One entry of a write's `userErrors` list. */
  datatype UserError = UserError(field: seq<string>, message: string)

  /**
   * What a price write gives back: a response whose `data` holds the
   * `userErrors` list (`None` when the response has no `data`), or an
   * exception from the call.
   */
  datatype WriteOutcome = Responded(data: Option<seq<UserError>>) | Threw(message: string)

  /** A product edge of a page, with the outcome its price write would get. */
  datatype PageItem = PageItem(node: Product, onWrite: WriteOutcome)

  /** `data.products` of a page response: the edges and the page info. */
  datatype Connection = Connection(edges: seq<PageItem>, endCursor: Option<string>, hasNextPage: bool)

  /**
   * A page response: one with `data.products`, one without it (no `data`
   * or no `products`), or an exception from the request.
   */
  datatype PageResponse = Products(products: Connection) | MissingProducts | FetchThrew(message: string)

  /**
   * The action's answer: status 400 when no rate record is stored, an
   * error message when a page could not be used, or success.
   */
  datatype ActionResult = NoRates | Failed(message: string) | Succeeded

  const NoRatesMessage: string := "No current rates found."
  const NoRatesStatus: int := 400
  const UnexpectedStructure: string := "Unexpected API response structure"

  /** The HTTP status of the action's reply: 400 only when no rate record is stored. */
  function ReplyStatus(result: ActionResult): (status: int)
    ensures status == 400 <==> result.NoRates?
  {
    if result.NoRates? then NoRatesStatus else 200
  }

  /** The `error` text of the action's reply, absent exactly on success. */
  function ReplyError(result: ActionResult): (error: Option<string>)
    ensures error.None? <==> result.Succeeded?
    ensures result.NoRates? ==> error == Some(NoRatesMessage)
  {
    match result
    case NoRates => Some(NoRatesMessage)
    case Failed(message) => Some(message)
    case Succeeded => None
  }

  /** A price write that was issued, with what came back. */
  datatype Attempt = Attempt(request: WriteRequest, outcome: WriteOutcome)

  /** All a run does: the cursors it requests pages with, the writes it issues, its answer. */
  datatype RunTrace = RunTrace(cursors: seq<Option<string>>, attempts: seq<Attempt>, result: ActionResult)

  /** A write counts as an update when its response has `data` and an empty `userErrors`. */
  predicate Updated(outcome: WriteOutcome) {
    outcome.Responded? && outcome.data.Some? && |outcome.data.value| == 0
  }

  /** A page after which no further page is requested. */
  predicate Final(page: PageResponse) {
    !page.Products? || !page.products.hasNextPage
  }

  /** Some page from index `i` on is final, so the run started there ends. */
  predicate Ends(pages: seq<PageResponse>, i: nat) {
    exists k :: i <= k < |pages| && Final(pages[k])
  }

  lemma EndsStep(pages: seq<PageResponse>, i: nat)
    requires Ends(pages, i) && !Final(pages[i])
    ensures Ends(pages, i + 1)
  {
    var k :| i <= k < |pages| && Final(pages[k]);
    assert k != i;
  }

  /** The index of the first final page from `i` on: the last page the run requests. */
  function FirstFinal(pages: seq<PageResponse>, i: nat): (k: nat)
    requires Ends(pages, i)
    ensures i <= k < |pages| && Final(pages[k])
    ensures forall j :: i <= j < k ==> !Final(pages[j])
    decreases |pages| - i
  {
    if Final(pages[i]) then i else EndsStep(pages, i); FirstFinal(pages, i + 1)
  }

  /** The writes a page's products lead to, in page order: never more writes than products. */
  function PageAttempts(rates: RateRecord, edges: seq<PageItem>): (r: seq<Attempt>)
    ensures |r| <= |edges|
  {
    if edges == [] then []
    else
      var last := edges[|edges| - 1];
      PageAttempts(rates, edges[..|edges| - 1])
        + match PlannedWrite(rates, last.node)
          case None => []
          case Some(request) => [Attempt(request, last.onWrite)]
  }

  /** The number of writes counted as updates: never more than the writes issued. */
  function UpdatedCount(attempts: seq<Attempt>): (n: nat)
    ensures n <= |attempts|
  {
    if attempts == [] then 0
    else UpdatedCount(attempts[..|attempts| - 1]) + if Updated(attempts[|attempts| - 1].outcome) then 1 else 0
  }

  /** The write requests of a list of attempts. */
  function Requests(attempts: seq<Attempt>): (r: seq<WriteRequest>)
    ensures |r| == |attempts|
  {
    if attempts == [] then [] else Requests(attempts[..|attempts| - 1]) + [attempts[|attempts| - 1].request]
  }

  /** The run from page `i` on, requesting it with `cursor`. */
  function RunFrom(rates: RateRecord, pages: seq<PageResponse>, i: nat, cursor: Option<string>): (t: RunTrace)
    requires Ends(pages, i)
    ensures t.result != NoRates
    decreases |pages| - i
  {
    match pages[i]
    case FetchThrew(message) => RunTrace([cursor], [], Failed(message))
    case MissingProducts => RunTrace([cursor], [], Failed(UnexpectedStructure))
    case Products(conn) =>
      var written := PageAttempts(rates, conn.edges);
      if !conn.hasNextPage then RunTrace([cursor], written, Succeeded)
      else
        EndsStep(pages, i);
        var rest := RunFrom(rates, pages, i + 1, conn.endCursor);
        RunTrace([cursor] + rest.cursors, written + rest.attempts, rest.result)
  }

  /** The whole action: nothing at all without a rate record, else the run from the first page with a null cursor. */
  function Apply(storedRates: Option<RateRecord>, pages: seq<PageResponse>): (t: RunTrace)
    requires storedRates.Some? ==> Ends(pages, 0)
    ensures t.result == NoRates <==> storedRates.None?
  {
    match storedRates
    case None => RunTrace([], [], NoRates)
    case Some(rates) => RunFrom(rates, pages, 0, None)
  }

  /** The trace `rest` with `cursors` and `attempts` done before it. */
  function Then(cursors: seq<Option<string>>, attempts: seq<Attempt>, rest: RunTrace): RunTrace
  {
    RunTrace(cursors + rest.cursors, attempts + rest.attempts, rest.result)
  }

  /** A page with products and a next page: its writes, then the run from the next page with its `endCursor`. */
  lemma RunStep(rates: RateRecord, pages: seq<PageResponse>, i: nat, cursor: Option<string>)
    requires Ends(pages, i) && pages[i].Products? && pages[i].products.hasNextPage
    ensures Ends(pages, i + 1)
    ensures RunFrom(rates, pages, i, cursor)
         == Then([cursor], PageAttempts(rates, pages[i].products.edges),
                 RunFrom(rates, pages, i + 1, pages[i].products.endCursor))
  {
    EndsStep(pages, i);
  }

  lemma ThenThen(c: seq<Option<string>>, a: seq<Attempt>, c': seq<Option<string>>, a': seq<Attempt>, t: RunTrace)
    ensures Then(c, a, Then(c', a', t)) == Then(c + c', a + a', t)
  {
    assert c + (c' + t.cursors) == (c + c') + t.cursors;
    assert a + (a' + t.attempts) == (a + a') + t.attempts;
  }

  /** A run requests pages up to the first final one, first with `cursor`, then each with the previous page's `endCursor`. */
  lemma {:induction false} RunCursors(rates: RateRecord, pages: seq<PageResponse>, i: nat, cursor: Option<string>)
    requires Ends(pages, i)
    ensures var t := RunFrom(rates, pages, i, cursor);
      && |t.cursors| == FirstFinal(pages, i) - i + 1
      && t.cursors[0] == cursor
      && forall k :: i <= k < FirstFinal(pages, i) ==>
           pages[k].Products? && pages[k].products.hasNextPage && t.cursors[k - i + 1] == pages[k].products.endCursor
    decreases |pages| - i
  {
    if !Final(pages[i]) {
      EndsStep(pages, i);
      var conn := pages[i].products;
      RunCursors(rates, pages, i + 1, conn.endCursor);
      var rest := RunFrom(rates, pages, i + 1, conn.endCursor);
      var t := RunFrom(rates, pages, i, cursor);
      assert t.cursors == [cursor] + rest.cursors;
      forall k | i <= k < FirstFinal(pages, i)
        ensures t.cursors[k - i + 1] == pages[k].products.endCursor
      {
        if k > i {
          assert t.cursors[k - i + 1] == rest.cursors[k - (i + 1) + 1];
        }
      }
    }
  }

  /** What a final page makes of the run: success when it has products, else its error. */
  function FinalResult(page: PageResponse): ActionResult
  {
    match page
    case Products(_) => Succeeded
    case MissingProducts => Failed(UnexpectedStructure)
    case FetchThrew(message) => Failed(message)
  }

  /**
   * A run fails exactly when its last page has no `data.products` (or its
   * request threw); write failures never change the answer.
   */
  lemma {:induction false} RunResult(rates: RateRecord, pages: seq<PageResponse>, i: nat, cursor: Option<string>)
    requires Ends(pages, i)
    ensures RunFrom(rates, pages, i, cursor).result == FinalResult(pages[FirstFinal(pages, i)])
    ensures RunFrom(rates, pages, i, cursor).result == Succeeded <==> pages[FirstFinal(pages, i)].Products?
    decreases |pages| - i
  {
    if !Final(pages[i]) {
      EndsStep(pages, i);
      RunResult(rates, pages, i + 1, pages[i].products.endCursor);
    }
  }

  /** The writes of the first `n` products are the first writes of the page. */
  lemma {:induction false} PageAttemptsPrefix(rates: RateRecord, edges: seq<PageItem>, n: nat)
    requires n <= |edges|
    ensures PageAttempts(rates, edges[..n]) <= PageAttempts(rates, edges)
  {
    if n < |edges| {
      var front := edges[..|edges| - 1];
      assert front[..n] == edges[..n];
      PageAttemptsPrefix(rates, front, n);
    } else {
      assert edges[..n] == edges;
    }
  }

  /**
   * Product `j` of a page issues at most one write: none when it is skipped,
   * otherwise its planned write with its own outcome, placed right after the
   * writes of the products before it.
   */
  lemma AtMostOneWritePerProduct(rates: RateRecord, edges: seq<PageItem>, j: nat)
    requires j < |edges|
    ensures PlannedWrite(rates, edges[j].node).None? ==>
      PageAttempts(rates, edges[..j + 1]) == PageAttempts(rates, edges[..j])
    ensures PlannedWrite(rates, edges[j].node).Some? ==>
      var a := Attempt(PlannedWrite(rates, edges[j].node).value, edges[j].onWrite);
      var before := PageAttempts(rates, edges[..j]);
      && PageAttempts(rates, edges[..j + 1]) == before + [a]
      && |before| < |PageAttempts(rates, edges)|
      && PageAttempts(rates, edges)[|before|] == a
  {
    var upTo := edges[..j + 1];
    assert upTo[..|upTo| - 1] == edges[..j];
    PageAttemptsPrefix(rates, edges, j + 1);
  }

  /**
   * Every write a page issues is the planned write of one of its products,
   * and carries that product's outcome.
   */
  lemma {:induction false} WritesArePlanned(rates: RateRecord, edges: seq<PageItem>, a: Attempt)
    requires a in PageAttempts(rates, edges)
    ensures exists j :: 0 <= j < |edges| && PlannedWrite(rates, edges[j].node) == Some(a.request)
                                          && edges[j].onWrite == a.outcome
  {
    var front := edges[..|edges| - 1];
    var last := edges[|edges| - 1];
    if a in PageAttempts(rates, front) {
      WritesArePlanned(rates, front, a);
      var j :| 0 <= j < |front| && PlannedWrite(rates, front[j].node) == Some(a.request)
                                && front[j].onWrite == a.outcome;
      assert edges[j] == front[j];
    } else {
      assert PlannedWrite(rates, last.node) == Some(a.request) && last.onWrite == a.outcome;
    }
  }

  /** Two product lists that differ at most in the outcomes their writes get. */
  predicate SameProducts(a: seq<PageItem>, b: seq<PageItem>) {
    |a| == |b| && forall j :: 0 <= j < |a| ==> a[j].node == b[j].node
  }

  /** Two page responses that differ at most in the outcomes of their products' writes. */
  predicate SamePage(p: PageResponse, q: PageResponse) {
    match p
    case Products(c) =>
      && q.Products? && c.endCursor == q.products.endCursor && c.hasNextPage == q.products.hasNextPage
      && SameProducts(c.edges, q.products.edges)
    case _ => p == q
  }

  lemma {:induction false} RequestsAppend(x: seq<Attempt>, y: seq<Attempt>)
    ensures Requests(x + y) == Requests(x) + Requests(y)
    decreases |y|
  {
    if y != [] {
      var y' := y[..|y| - 1];
      assert (x + y)[..|x + y| - 1] == x + y';
      RequestsAppend(x, y');
    } else {
      assert x + y == x;
    }
  }

  /** The writes a page issues do not depend on how its earlier writes went. */
  lemma {:induction false} PageRequestsIgnoreOutcomes(rates: RateRecord, a: seq<PageItem>, b: seq<PageItem>)
    requires SameProducts(a, b)
    ensures Requests(PageAttempts(rates, a)) == Requests(PageAttempts(rates, b))
  {
    if a != [] {
      var a', b' := a[..|a| - 1], b[..|b| - 1];
      PageRequestsIgnoreOutcomes(rates, a', b');
      var la, lb := a[|a| - 1], b[|b| - 1];
      var ta := match PlannedWrite(rates, la.node) case None => [] case Some(r) => [Attempt(r, la.onWrite)];
      var tb := match PlannedWrite(rates, lb.node) case None => [] case Some(r) => [Attempt(r, lb.onWrite)];
      RequestsAppend(PageAttempts(rates, a'), ta);
      RequestsAppend(PageAttempts(rates, b'), tb);
      assert Requests(ta) == Requests(tb);
    }
  }

  /** Page lists that differ at most in write outcomes. */
  predicate SamePages(pages: seq<PageResponse>, other: seq<PageResponse>) {
    |pages| == |other| && forall k :: 0 <= k < |pages| ==> SamePage(pages[k], other[k])
  }

  lemma SamePagesEnd(pages: seq<PageResponse>, other: seq<PageResponse>, i: nat)
    requires Ends(pages, i) && SamePages(pages, other)
    ensures Ends(other, i)
  {
    var k :| i <= k < |pages| && Final(pages[k]);
    assert SamePage(pages[k], other[k]);
    assert Final(other[k]);
  }

  /**
   * Failed writes do not stop a run: with the same catalog, runs whose
   * writes succeed or fail differently request the same pages, issue the
   * same writes and give the same answer.
   */
  lemma {:induction false} RunIgnoresOutcomes(rates: RateRecord, pages: seq<PageResponse>, other: seq<PageResponse>,
                                              i: nat, cursor: Option<string>)
    requires Ends(pages, i) && SamePages(pages, other)
    ensures Ends(other, i)
    ensures var t, u := RunFrom(rates, pages, i, cursor), RunFrom(rates, other, i, cursor);
      t.cursors == u.cursors && Requests(t.attempts) == Requests(u.attempts) && t.result == u.result
    decreases |pages| - i
  {
    SamePagesEnd(pages, other, i);
    assert SamePage(pages[i], other[i]);
    if pages[i].Products? {
      var c, d := pages[i].products, other[i].products;
      PageRequestsIgnoreOutcomes(rates, c.edges, d.edges);
      if c.hasNextPage {
        EndsStep(pages, i);
        RunIgnoresOutcomes(rates, pages, other, i + 1, c.endCursor);
        var t, u := RunFrom(rates, pages, i + 1, c.endCursor), RunFrom(rates, other, i + 1, c.endCursor);
        RequestsAppend(PageAttempts(rates, c.edges), t.attempts);
        RequestsAppend(PageAttempts(rates, d.edges), u.attempts);
        assert RunFrom(rates, pages, i, cursor) == Then([cursor], PageAttempts(rates, c.edges), t);
        assert RunFrom(rates, other, i, cursor) == Then([cursor], PageAttempts(rates, d.edges), u);
      }
    }
  }

  /** A first page that is empty and final ends the run successfully with nothing written, whatever follows it. */
  lemma EmptyCatalog(rates: RateRecord, pages: seq<PageResponse>, endCursor: Option<string>)
    requires |pages| > 0 && pages[0] == Products(Connection([], endCursor, false))
    ensures Ends(pages, 0)
    ensures Apply(Some(rates), pages) == RunTrace([None], [], Succeeded)
  {
    assert Final(pages[0]);
  }

  /**
   * The `for` loop over one page's products: plan each product's write,
   * issue it, and count it when it reports no user errors. A skipped
   * product, a write with user errors and a write that throws all leave the
   * counter as it was, and the loop goes on with the next product.
   */
  method ProcessPage(rates: RateRecord, goldProducts: seq<PageItem>, attemptsIn: seq<Attempt>, updatedIn: nat)
    returns (attempts: seq<Attempt>, totalProductsUpdated: nat)
    requires updatedIn == UpdatedCount(attemptsIn)
    ensures attempts == attemptsIn + PageAttempts(rates, goldProducts)
    ensures totalProductsUpdated == UpdatedCount(attempts)
  {
    attempts, totalProductsUpdated := attemptsIn, updatedIn;
    for j := 0 to |goldProducts|
      invariant attempts == attemptsIn + PageAttempts(rates, goldProducts[..j])
      invariant totalProductsUpdated == UpdatedCount(attempts)
    {
      AtMostOneWritePerProduct(rates, goldProducts, j);
      var planned := PriceProduct(rates, goldProducts[j].node);
      if planned.Some? {
        var outcome := goldProducts[j].onWrite;
        var attempt := Attempt(planned.value, outcome);
        assert (attempts + [attempt])[..|attempts + [attempt]| - 1] == attempts;
        attempts := attempts + [attempt];
        match outcome
        case Threw(_) =>
        case Responded(data) =>
          if data.Some? && |data.value| == 0 {
            totalProductsUpdated := totalProductsUpdated + 1;
          }
      }
    }
    assert goldProducts[..|goldProducts|] == goldProducts;
  }

  /**
   * The action: no rate record means an immediate answer with status 400;
   * otherwise the `while (hasNextPage)` loop requests pages, first with a
   * null cursor and then with each page's `endCursor`, until a page says
   * there is no next one or a page cannot be used.
   */
  method Action(storedRates: Option<RateRecord>, pages: seq<PageResponse>)
    returns (result: ActionResult, cursors: seq<Option<string>>, attempts: seq<Attempt>, totalProductsUpdated: nat)
    requires storedRates.Some? ==> Ends(pages, 0)
    ensures RunTrace(cursors, attempts, result) == Apply(storedRates, pages)
    ensures storedRates.None? ==> result == NoRates && cursors == [] && attempts == []
    ensures totalProductsUpdated == UpdatedCount(attempts) <= |attempts|
  {
    cursors, attempts, totalProductsUpdated := [], [], 0;
    if storedRates.None? {
      result := NoRates;
      return;
    }
    var rates := storedRates.value;
    var hasNextPage := true;
    var endCursor: Option<string> := None;
    var page: nat := 0;
    while hasNextPage
      invariant page <= |pages|
      invariant totalProductsUpdated == UpdatedCount(attempts)
      invariant hasNextPage ==> Ends(pages, page)
      invariant hasNextPage ==>
        Apply(storedRates, pages) == Then(cursors, attempts, RunFrom(rates, pages, page, endCursor))
      invariant !hasNextPage ==> Apply(storedRates, pages) == RunTrace(cursors, attempts, Succeeded)
      decreases |pages| - page
    {
      var response := pages[page];
      ghost var requested, cursorsBefore, attemptsBefore := endCursor, cursors, attempts;
      cursors := cursors + [endCursor];
      if response.FetchThrew? {
        result := Failed(response.message);
        ThenThen(cursorsBefore, attemptsBefore, [requested], [], RunTrace([], [], result));
        return;
      }
      if response.MissingProducts? {
        result := Failed(UnexpectedStructure);
        ThenThen(cursorsBefore, attemptsBefore, [requested], [], RunTrace([], [], result));
        return;
      }
      attempts, totalProductsUpdated := ProcessPage(rates, response.products.edges, attempts, totalProductsUpdated);
      hasNextPage := response.products.hasNextPage;
      endCursor := response.products.endCursor;
      ghost var written := PageAttempts(rates, response.products.edges);
      if hasNextPage {
        RunStep(rates, pages, page, requested);
        ThenThen(cursorsBefore, attemptsBefore, [requested], written, RunFrom(rates, pages, page + 1, endCursor));
      } else {
        ThenThen(cursorsBefore, attemptsBefore, [requested], written, RunTrace([], [], Succeeded));
      }
      page := page + 1;
    }
    result := Succeeded;
  }
}
