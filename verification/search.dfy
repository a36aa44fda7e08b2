/**
 `searchMovies(query, options)` (index.js lines 94-137) as a pure step: from
 the pagination state, the view, the call's arguments and what the network
 answered, the state and view the call leaves behind. The request itself is
 `Request`; the answer is a parameter, since `fetch` and JSON decoding are
 outside the model.
 */
module Search {
  import opened Values
  import opened Text
  import opened Query
  import opened Render

  const PageSize: nat := 10
  const EmptyQueryMessage: string := "Please enter a movie title to search."
  const RequestFailedMessage: string := "Request failed. Check console for details."

  /** The process-wide pagination state: `currentPage`, `totalPages`, `lastQuery`. */
  datatype State = State(currentPage: int, totalPages: nat, lastQuery: string)

  /** The whole widget: pagination state and view. */
  datatype Sys = Sys(state: State, view: View)

  /**
   The `options` argument. A missing `page` and a page of 0 are both falsy;
   `kind` is the API's `type` filter.
   */
  datatype Options = Options(page: Option<int>, kind: Option<string>, year: Option<string>)

  /**
   The decoded body of a successful HTTP response. `Failure` is an envelope
   whose `Response` is "False", with its `Error` text (`""` when absent);
   any other envelope is a `Success`, with its `Search` list (when present)
   and its `totalResults` count (absent when the field is missing or empty).
   */
  datatype Envelope =
    | Failure(error: string)
    | Success(search: Option<seq<Item>>, totalResults: Option<nat>)

  /**
   What the network step produced: an exception (a failed `fetch`, a non-OK
   status, a body that is not JSON) or a decoded envelope.
   */
  datatype Response = Thrown | Received(envelope: Envelope)

  /** The guard of line 95: no query, or one that is empty once trimmed. */
  predicate MissingQuery(query: Option<string>) {
    query.None? || Blank(query.value)
  }

  /** `options.page || 1`: the page asked for, never the falsy 0. */
  function PageOf(o: Options): (p: int)
    ensures p != 0
    ensures (o.page.None? || o.page.value == 0) ==> p == 1
    ensures o.page.Some? && o.page.value != 0 ==> p == o.page.value
  {
    match o.page
    case Some(n) => if n != 0 then n else 1
    case None => 1
  }

  /** The parameter object of lines 103-105: `s` and `page`, then `type` and `y` when given. */
  function RequestParams(query: string, o: Options): Params {
    [("s", Str(Trim(query))), ("page", Num(PageOf(o)))]
    + (if Present(o.kind) then [("type", Str(o.kind.value))] else [])
    + (if Present(o.year) then [("y", Str(o.year.value))] else [])
  }

  /**
   The URL fetched for a call, or `None` when the guard stops the call first.
   A fetched URL always goes to the API with the key first and no key twice;
   `RequestContents` states its parameters.
   */
  function Request(query: Option<string>, o: Options): (r: Option<Url>)
    ensures r.None? <==> MissingQuery(query)
    ensures r.Some? ==> r.value.base == BaseUrl && DistinctKeys(r.value.query)
    ensures r.Some? ==> r.value.query != [] && r.value.query[0].0 == "apikey"
  {
    if MissingQuery(query) then None else Some(BuildUrl(RequestParams(query.value, o)))
  }

  /** `Math.ceil(n / 10)`: the number of pages of ten results needed to hold `n` results. */
  function TotalPages(n: nat): (pages: nat)
    ensures pages * PageSize >= n
    ensures pages == 0 || (pages - 1) * PageSize < n
  {
    (n + PageSize - 1) / PageSize
  }

  /**
   `parseInt(data.totalResults || list.length, 10)`: a reported count wins
   whenever there is one, even 0; the list's length is only the fallback.
   */
  function TotalResults(reported: Option<nat>, list: seq<Item>): (n: nat)
    ensures reported.Some? ==> n == reported.value
    ensures reported.None? ==> n == |list|
  {
    match reported
    case Some(n) => n
    case None => |list|
  }

  /**
   The effect of one call of `searchMovies`. A missing query shows the
   prompt; an exception shows the generic error; a failure envelope shows its
   error text. None of the three touches the pagination state. A success
   renders the list, labels and enables the buttons from the requested page
   and the page count, and records that page and the untrimmed query.
   */
  function SearchMovies(s: Sys, query: Option<string>, o: Options, resp: Response): (r: Sys)
    ensures MissingQuery(query) ==>
      && r.state == s.state
      && r.view == ShowMessage(s.view, EmptyQueryMessage, false)
    ensures !MissingQuery(query) ==> !r.view.searching
    ensures !MissingQuery(query) && !(resp.Received? && resp.envelope.Success?) ==>
      && r.state == s.state
      && r.view.pageInfo == "Page 0 of 0"
      && r.view.prevDisabled && r.view.nextDisabled
    ensures !MissingQuery(query) && resp.Thrown? ==>
      r.view.body == Message(RequestFailedMessage, true)
    ensures !MissingQuery(query) && resp.Received? && resp.envelope.Failure? ==>
      r.view.body == Message(if resp.envelope.error == "" then NoResultsMessage else resp.envelope.error, false)
  {
    if MissingQuery(query) then
      Sys(s.state, ShowMessage(s.view, EmptyQueryMessage, false))
    else
      var busy := s.view.(searching := true);
      match resp
      case Thrown =>
        Sys(s.state, ShowMessage(busy, RequestFailedMessage, true).(searching := false))
      case Received(Failure(error)) =>
        var msg := if error != "" then error else NoResultsMessage;
        Sys(s.state, ShowMessage(busy, msg, false).(searching := false))
      case Received(Success(search, reported)) =>
        var list := search.GetOr([]);
        var page := PageOf(o);
        var pages := TotalPages(TotalResults(reported, list));
        var shown := RenderResults(busy, list);
        var v := shown.(pageInfo := PageText(page, pages),
                        prevDisabled := page <= 1,
                        nextDisabled := page >= pages,
                        searching := false);
        Sys(State(page, pages, query.value), v)
  }

  /**
   After a success for page `p`: the label reads "Page p of n" with `n` the
   ceiling of the result count over ten (the list's length standing in for a
   missing count); previous is disabled exactly when p <= 1 and next exactly
   when p >= n; the results area shows one card per item, or "No results
   found." for an empty list; and the state records p, n and the untrimmed
   query.
   */
  lemma SuccessOutcome(s: Sys, query: string, o: Options, search: Option<seq<Item>>, reported: Option<nat>)
    requires !Blank(query)
    ensures var r := SearchMovies(s, Some(query), o, Received(Success(search, reported)));
      var list := search.GetOr([]);
      var n := if reported.Some? then reported.value else |list|;
      var p := PageOf(o);
      && r.state.currentPage == p
      && r.state.lastQuery == query
      && r.state.totalPages * PageSize >= n
      && (r.state.totalPages == 0 || (r.state.totalPages - 1) * PageSize < n)
      && r.view.pageInfo == PageText(p, r.state.totalPages)
      && (r.view.prevDisabled <==> p <= 1)
      && (r.view.nextDisabled <==> p >= r.state.totalPages)
      && !r.view.searching
      && (list == [] ==> r.view.body == Message(NoResultsMessage, false))
      && (list != [] ==> r.view.body.Cards? && |r.view.body.cards| == |list|
                         && forall i :: 0 <= i < |list| ==> r.view.body.cards[i] == ProjectCard(list[i]))
  {
  }

  /**
   A success does not depend on what was on screen or in the state before:
   any two systems end in the same place.
   */
  lemma SuccessForgetsPast(s1: Sys, s2: Sys, query: Option<string>, o: Options, e: Envelope)
    requires !MissingQuery(query) && e.Success?
    ensures SearchMovies(s1, query, o, Received(e)) == SearchMovies(s2, query, o, Received(e))
  {
  }

  /** Repeating a search against an unchanged answer changes nothing more. */
  lemma SearchIdempotent(s: Sys, query: Option<string>, o: Options, resp: Response)
    ensures var once := SearchMovies(s, query, o, resp);
            SearchMovies(once, query, o, resp) == once
  {
  }

  /**
   What is requested for a call that passes the guard: the API key; `s` the
   trimmed query; `page` the requested page, or 1 when that is falsy; `type`
   and `y` exactly when those options are truthy, with their values; and
   nothing else.
   */
  lemma RequestContents(query: Option<string>, o: Options, k: string)
    ensures Request(query, o).None? <==> MissingQuery(query)
    ensures Request(query, o).Some? ==>
      var q := Request(query, o).value.query;
      && Trim(query.value) != ""
      && Lookup(q, "apikey") == Some(Str(ApiKey))
      && Lookup(q, "s") == Some(Str(Trim(query.value)))
      && Lookup(q, "page") == Some(Num(PageOf(o)))
      && Lookup(q, "type") == (if Present(o.kind) then Some(Str(o.kind.value)) else None)
      && Lookup(q, "y") == (if Present(o.year) then Some(Str(o.year.value)) else None)
      && (k != "apikey" && k != "s" && k != "page" && k != "type" && k != "y" ==> Lookup(q, k) == None)
  {
    if !MissingQuery(query) {
      ParamsContents(query.value, o, k);
    }
  }

  /** `RequestContents` for a query that passes the guard. */
  lemma ParamsContents(query: string, o: Options, k: string)
    requires Trim(query) != ""
    ensures var q := BuildUrl(RequestParams(query, o)).query;
      && Lookup(q, "apikey") == Some(Str(ApiKey))
      && Lookup(q, "s") == Some(Str(Trim(query)))
      && Lookup(q, "page") == Some(Num(PageOf(o)))
      && Lookup(q, "type") == (if Present(o.kind) then Some(Str(o.kind.value)) else None)
      && Lookup(q, "y") == (if Present(o.year) then Some(Str(o.year.value)) else None)
      && (k != "apikey" && k != "s" && k != "page" && k != "type" && k != "y" ==> Lookup(q, k) == None)
  {
    NamedParams(query, o);
    if k != "apikey" && k != "s" && k != "page" && k != "type" && k != "y" {
      OtherParams(query, o, k);
    }
  }

  /** The shapes the parameter object of lines 103-105 can take. */
  lemma ParamsShape(query: string, o: Options)
    requires Trim(query) != ""
    ensures var ps := RequestParams(query, o);
      && 2 <= |ps| <= 4
      && ps[0] == ("s", Str(Trim(query))) && ps[1] == ("page", Num(PageOf(o)))
      && (Present(o.kind) ==> ps[2] == ("type", Str(o.kind.value)))
      && (Present(o.year) ==> ps[|ps| - 1] == ("y", Str(o.year.value)))
      && |ps| == 2 + (if Present(o.kind) then 1 else 0) + (if Present(o.year) then 1 else 0)
      && (forall i :: 0 <= i < |ps| ==> Kept(ps[i].1) && ps[i].0 != "apikey")
      && (forall i, j :: 0 <= i < j < |ps| ==> ps[i].0 != ps[j].0)
  {
    var ps := RequestParams(query, o);
    var s0 := ("s", Str(Trim(query)));
    var p0 := ("page", Num(PageOf(o)));
    if Present(o.kind) && Present(o.year) {
      assert ps == [s0, p0, ("type", Str(o.kind.value)), ("y", Str(o.year.value))];
    } else if Present(o.kind) {
      assert ps == [s0, p0, ("type", Str(o.kind.value))];
    } else if Present(o.year) {
      assert ps == [s0, p0, ("y", Str(o.year.value))];
    } else {
      assert ps == [s0, p0];
    }
  }

  /** The five named keys of a request that passes the guard. */
  lemma NamedParams(query: string, o: Options)
    requires Trim(query) != ""
    ensures var q := BuildUrl(RequestParams(query, o)).query;
      && Lookup(q, "apikey") == Some(Str(ApiKey))
      && Lookup(q, "s") == Some(Str(Trim(query)))
      && Lookup(q, "page") == Some(Num(PageOf(o)))
      && Lookup(q, "type") == (if Present(o.kind) then Some(Str(o.kind.value)) else None)
      && Lookup(q, "y") == (if Present(o.year) then Some(Str(o.year.value)) else None)
  {
    var ps := RequestParams(query, o);
    ParamsShape(query, o);
    RequestLookups(ps, "type");
    RequestLookups(ps, "y");
    assert Lookup(BuildUrl(ps).query, ps[0].0) == Some(ps[0].1);
    assert Lookup(BuildUrl(ps).query, ps[1].0) == Some(ps[1].1);
    if Present(o.kind) {
      assert Lookup(BuildUrl(ps).query, ps[2].0) == Some(ps[2].1);
    } else {
      assert forall i :: 0 <= i < |ps| ==> ps[i].0 != "type";
    }
    if Present(o.year) {
      assert Lookup(BuildUrl(ps).query, ps[|ps| - 1].0) == Some(ps[|ps| - 1].1);
    } else {
      assert forall i :: 0 <= i < |ps| ==> ps[i].0 != "y";
    }
  }

  /** A request that passes the guard carries no other key. */
  lemma OtherParams(query: string, o: Options, k: string)
    requires Trim(query) != ""
    requires k != "apikey" && k != "s" && k != "page" && k != "type" && k != "y"
    ensures Lookup(BuildUrl(RequestParams(query, o)).query, k) == None
  {
    var ps := RequestParams(query, o);
    ParamsShape(query, o);
    forall i | 0 <= i < |ps|
      ensures ps[i].0 != k
    {
      assert i == 0 || i == 1 || i == 2 || i == 3;
    }
    RequestLookups(ps, k);
  }

  /**
   For a parameter list whose keys are distinct and whose values are all
   kept, the built URL holds exactly those pairs besides the API key.
   */
  lemma RequestLookups(ps: Params, k: string)
    requires forall i :: 0 <= i < |ps| ==> Kept(ps[i].1) && ps[i].0 != "apikey"
    requires forall i, j :: 0 <= i < j < |ps| ==> ps[i].0 != ps[j].0
    ensures Lookup(BuildUrl(ps).query, "apikey") == Some(Str(ApiKey))
    ensures forall i :: 0 <= i < |ps| ==> Lookup(BuildUrl(ps).query, ps[i].0) == Some(ps[i].1)
    ensures k != "apikey" && (forall i :: 0 <= i < |ps| ==> ps[i].0 != k) ==> Lookup(BuildUrl(ps).query, k) == None
  {
    BuildUrlContents(ps, "apikey");
    BuildUrlContents(ps, k);
    forall i | 0 <= i < |ps|
      ensures Lookup(BuildUrl(ps).query, ps[i].0) == Some(ps[i].1)
    {
      BuildUrlContents(ps, ps[i].0);
    }
  }
}
