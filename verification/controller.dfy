/**
 The event wiring of index.js (lines 140-176): the debounced `doSearch`
 handler behind the three inputs and the Search button, the previous and
 next handlers, and the initial hint. Each event is one atomic step; the
 debounce delay and overlapping requests are not modelled.
 */
module Controller {
  import opened Values
  import opened Text
  import opened Query
  import opened Render
  import opened Search

  const HintMessage: string := "Enter a title and press Search (or type to search)."

  /** The current values of the query box, the type selector and the year box. */
  datatype Inputs = Inputs(query: string, kind: string, year: string)

  /**
   A user action: editing any input or pressing Search (both run
   `doSearch`), or clicking the previous or next button. Each carries the
   inputs as they are at that moment.
   */
  datatype Event = Edited(inputs: Inputs) | PrevClicked(inputs: Inputs) | NextClicked(inputs: Inputs)

  /** A call of `searchMovies(query, options)` made by a handler. */
  datatype Call = Call(query: string, options: Options)

  /** The widget once the script has loaded: the hint is shown and no request has been made. */
  function Init(): (s: Sys)
    ensures s.state == State(1, 0, "")
    ensures s.view.body == Message(HintMessage, false)
    ensures s.view.pageInfo == "Page 0 of 0" && s.view.prevDisabled && s.view.nextDisabled
  {
    var blank := View(Message("", false), "", false, false, false);
    Sys(State(1, 0, ""), ShowMessage(blank, HintMessage, false))
  }

  /** The options every handler passes: the page, and `type`/`year` turned to `undefined` when empty. */
  function FilterOptions(page: int, inputs: Inputs): (o: Options)
    ensures o.page == Some(page)
    ensures Present(o.kind) <==> inputs.kind != ""
    ensures Present(o.year) <==> inputs.year != ""
    ensures o.kind.Some? ==> o.kind.value == inputs.kind
    ensures o.year.Some? ==> o.year.value == inputs.year
  {
    Options(Some(page), OrUndefined(inputs.kind), OrUndefined(inputs.year))
  }

  /** `doSearch`: back to page 1, then search the current inputs for page 1. */
  function OnEdit(st: State, inputs: Inputs): (r: (State, Call))
    ensures r.0.currentPage == 1
    ensures r.0.totalPages == st.totalPages && r.0.lastQuery == st.lastQuery
    ensures r.1.query == inputs.query && r.1.options.page == Some(1)
    ensures r.1.options == FilterOptions(r.1.options.page.value, inputs)
  {
    (st.(currentPage := 1), Call(inputs.query, FilterOptions(1, inputs)))
  }

  /**
   The previous handler: only past the first page, and then for the page
   before, with the last successful query but the filters as they are now.
   */
  function OnPrev(st: State, inputs: Inputs): (c: Option<Call>)
    ensures c.Some? <==> st.currentPage > 1
    ensures c.Some? ==> c.value.query == st.lastQuery
    ensures c.Some? ==> c.value.options == FilterOptions(st.currentPage - 1, inputs)
    ensures c.Some? ==> c.value.options.page.value >= 1
  {
    if st.currentPage > 1 then Some(Call(st.lastQuery, FilterOptions(st.currentPage - 1, inputs)))
    else None
  }

  /**
   The next handler: only before the last page, and then for the page
   after, with the last successful query but the filters as they are now.
   */
  function OnNext(st: State, inputs: Inputs): (c: Option<Call>)
    ensures c.Some? <==> st.currentPage < st.totalPages
    ensures c.Some? ==> c.value.query == st.lastQuery
    ensures c.Some? ==> c.value.options == FilterOptions(st.currentPage + 1, inputs)
    ensures c.Some? ==> c.value.options.page.value <= st.totalPages
  {
    if st.currentPage < st.totalPages then Some(Call(st.lastQuery, FilterOptions(st.currentPage + 1, inputs)))
    else None
  }

  /**
   Which handler an event reaches and what it does before searching: the
   state it leaves and the call it makes, if any. A disabled button
   delivers no click, so its handler does not run.
   */
  function Dispatch(s: Sys, ev: Event): (r: (State, Option<Call>))
    ensures ev.Edited? ==> r.0 == s.state.(currentPage := 1) && r.1.Some? && r.1.value.query == ev.inputs.query
    ensures !ev.Edited? ==> r.0 == s.state
    ensures ev.PrevClicked? ==> (r.1.Some? <==> !s.view.prevDisabled && s.state.currentPage > 1)
    ensures ev.NextClicked? ==> (r.1.Some? <==> !s.view.nextDisabled && s.state.currentPage < s.state.totalPages)
    ensures r.1.Some? ==> r.1.value.options.page.Some?
    ensures r.1.Some? ==> r.1.value.options == FilterOptions(r.1.value.options.page.value, ev.inputs)
  {
    match ev
    case Edited(inputs) =>
      var (st, c) := OnEdit(s.state, inputs);
      (st, Some(c))
    case PrevClicked(inputs) =>
      if s.view.prevDisabled then (s.state, None) else (s.state, OnPrev(s.state, inputs))
    case NextClicked(inputs) =>
      if s.view.nextDisabled then (s.state, None) else (s.state, OnNext(s.state, inputs))
  }

  /** The URL an event fetches, if it fetches one. */
  function Sent(s: Sys, ev: Event): Option<Url> {
    match Dispatch(s, ev).1
    case None => None
    case Some(c) => Request(Some(c.query), c.options)
  }

  /**
   One event, with `resp` the answer to the request it sends (unused when it
   sends none). A click that its button or its handler's guard stops leaves
   the widget exactly as it was; an edit always ends on page 1; and a step
   that fetches something ends with the status line clear.
   */
  function Step(s: Sys, ev: Event, resp: Response): (r: Sys)
    ensures ev.PrevClicked? && (s.view.prevDisabled || s.state.currentPage <= 1) ==> r == s
    ensures ev.NextClicked? && (s.view.nextDisabled || s.state.currentPage >= s.state.totalPages) ==> r == s
    ensures ev.Edited? ==> r.state.currentPage == 1
    ensures Sent(s, ev).Some? ==> !r.view.searching
  {
    var (st, call) := Dispatch(s, ev);
    match call
    case None => Sys(st, s.view)
    case Some(c) => SearchMovies(Sys(st, s.view), Some(c.query), c.options, resp)
  }

  /** A sequence of events, each with the answer to its request. */
  function Run(s: Sys, trace: seq<(Event, Response)>): Sys {
    if trace == [] then s
    else
      var prev := Run(s, trace[..|trace| - 1]);
      Step(prev, trace[|trace| - 1].0, trace[|trace| - 1].1)
  }

  /**
   What holds of the widget between events: the current page is at least 1;
   an enabled previous button means there is a page before; an enabled next
   button means there is a page after; the status line is clear; and until
   some search succeeds the state is the initial one, with a blank query.
   */
  predicate Inv(s: Sys) {
    && s.state.currentPage >= 1
    && (!s.view.prevDisabled ==> s.state.currentPage > 1)
    && (!s.view.nextDisabled ==> s.state.currentPage < s.state.totalPages)
    && !s.view.searching
    && (Blank(s.state.lastQuery) ==> s.state.currentPage == 1 && s.state.totalPages == 0)
  }

  lemma InitInv()
    ensures Inv(Init())
  {
    assert Trim("") == "";
  }

  /** Every event keeps the invariant, whatever the network answers. */
  lemma StepInv(s: Sys, ev: Event, resp: Response)
    requires Inv(s)
    ensures Inv(Step(s, ev, resp))
  {
    var (st, call) := Dispatch(s, ev);
    if call.Some? {
      var c := call.value;
      var r := SearchMovies(Sys(st, s.view), Some(c.query), c.options, resp);
      if !MissingQuery(Some(c.query)) && resp.Received? && resp.envelope.Success? {
        SuccessOutcome(Sys(st, s.view), c.query, c.options, resp.envelope.search, resp.envelope.totalResults);
        assert c.options.page.Some? && c.options.page.value >= 1;
      }
    }
  }

  /** Every state the widget can reach from its initial one satisfies the invariant. */
  lemma {:induction false} RunInv(trace: seq<(Event, Response)>)
    ensures Inv(Run(Init(), trace))
  {
    if trace == [] {
      InitInv();
    } else {
      RunInv(trace[..|trace| - 1]);
      StepInv(Run(Init(), trace[..|trace| - 1]), trace[|trace| - 1].0, trace[|trace| - 1].1);
    }
  }

  /**
   Navigation backwards stays in range. In a reachable state a click on
   previous sends a request exactly when the button is enabled, for the page
   before the current one and never below 1, searching the trimmed last
   query with the filters as they are now.
   */
  lemma PrevInRange(s: Sys, inputs: Inputs)
    requires Inv(s)
    ensures Sent(s, PrevClicked(inputs)).Some? <==> !s.view.prevDisabled
    ensures Sent(s, PrevClicked(inputs)).Some? ==>
      var q := Sent(s, PrevClicked(inputs)).value.query;
      && Lookup(q, "page") == Some(Num(s.state.currentPage - 1))
      && s.state.currentPage - 1 >= 1
      && Lookup(q, "s") == Some(Str(Trim(s.state.lastQuery)))
      && Lookup(q, "type") == (if inputs.kind != "" then Some(Str(inputs.kind)) else None)
      && Lookup(q, "y") == (if inputs.year != "" then Some(Str(inputs.year)) else None)
  {
    var o := FilterOptions(s.state.currentPage - 1, inputs);
    PrevSends(s, inputs);
    if !s.view.prevDisabled {
      RequestContents(Some(s.state.lastQuery), o, "");
    }
  }

  /**
   Navigation forwards stays in range. In a reachable state a click on next
   sends a request exactly when the button is enabled, for the page after the
   current one and never past the last, searching the trimmed last query
   with the filters as they are now.
   */
  lemma NextInRange(s: Sys, inputs: Inputs)
    requires Inv(s)
    ensures Sent(s, NextClicked(inputs)).Some? <==> !s.view.nextDisabled
    ensures Sent(s, NextClicked(inputs)).Some? ==>
      var q := Sent(s, NextClicked(inputs)).value.query;
      && Lookup(q, "page") == Some(Num(s.state.currentPage + 1))
      && s.state.currentPage + 1 <= s.state.totalPages
      && Lookup(q, "s") == Some(Str(Trim(s.state.lastQuery)))
      && Lookup(q, "type") == (if inputs.kind != "" then Some(Str(inputs.kind)) else None)
      && Lookup(q, "y") == (if inputs.year != "" then Some(Str(inputs.year)) else None)
  {
    var o := FilterOptions(s.state.currentPage + 1, inputs);
    NextSends(s, inputs);
    if !s.view.nextDisabled {
      RequestContents(Some(s.state.lastQuery), o, "");
    }
  }

  /** In a reachable state an enabled previous button always leads to a request. */
  lemma PrevSends(s: Sys, inputs: Inputs)
    requires Inv(s)
    ensures Sent(s, PrevClicked(inputs)) ==
      if s.view.prevDisabled then None
      else Request(Some(s.state.lastQuery), FilterOptions(s.state.currentPage - 1, inputs))
    ensures !s.view.prevDisabled ==> !MissingQuery(Some(s.state.lastQuery))
  {
  }

  /** In a reachable state an enabled next button always leads to a request. */
  lemma NextSends(s: Sys, inputs: Inputs)
    requires Inv(s)
    ensures Sent(s, NextClicked(inputs)) ==
      if s.view.nextDisabled then None
      else Request(Some(s.state.lastQuery), FilterOptions(s.state.currentPage + 1, inputs))
    ensures !s.view.nextDisabled ==> !MissingQuery(Some(s.state.lastQuery))
  {
  }

  /**
   Editing an input (or pressing Search) asks for page 1 of the current
   inputs, and sends nothing when the query box is blank; either way the
   widget ends on page 1.
   */
  lemma EditGoesToFirstPage(s: Sys, inputs: Inputs, resp: Response)
    ensures Sent(s, Edited(inputs)).None? <==> Blank(inputs.query)
    ensures Sent(s, Edited(inputs)).Some? ==>
      var q := Sent(s, Edited(inputs)).value.query;
      && Lookup(q, "page") == Some(Num(1))
      && Lookup(q, "s") == Some(Str(Trim(inputs.query)))
    ensures Step(s, Edited(inputs), resp).state.currentPage == 1
  {
    RequestContents(Some(inputs.query), FilterOptions(1, inputs), "");
  }

  /**
   A blank query changes nothing in the pagination state but the reset to
   page 1, and shows the prompt with "Page 0 of 0" and both buttons disabled.
   */
  lemma BlankEditShowsPrompt(s: Sys, inputs: Inputs, resp: Response)
    requires Blank(inputs.query)
    ensures var r := Step(s, Edited(inputs), resp);
      && r.state == s.state.(currentPage := 1)
      && r.view.body == Message(EmptyQueryMessage, false)
      && r.view.pageInfo == "Page 0 of 0"
      && r.view.prevDisabled && r.view.nextDisabled
  {
  }

  /**
   After a failure envelope answers a click on next, both buttons are
   disabled although the handlers' own guards would still let a click
   through: it is the disabled attribute, not the state, that stops
   navigation until the next success. This holds in every reachable widget
   whose next button is enabled.
   */
  lemma StaleGuardsAfterFailure(trace: seq<(Event, Response)>, inputs: Inputs, error: string)
    requires !Run(Init(), trace).view.nextDisabled
    ensures var before := Run(Init(), trace);
      var after := Run(Init(), trace + [(NextClicked(inputs), Received(Failure(error)))]);
      && after.state == before.state
      && after.view.prevDisabled && after.view.nextDisabled
      && OnNext(after.state, inputs).Some?
      && (!before.view.prevDisabled ==> OnPrev(after.state, inputs).Some?)
  {
    var before := Run(Init(), trace);
    var t := trace + [(NextClicked(inputs), Received(Failure(error)))];
    assert t[..|t| - 1] == trace;
    RunInv(trace);
    NextSends(before, inputs);
  }
}
