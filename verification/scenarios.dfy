/**
 Concrete runs of the model: a first page of twelve, an API failure, a blank
 query, a thrown request, a posterless card, and two behaviours of the
 success path that a reader might not expect.
 */
module Scenarios {
  import opened Values
  import opened Text
  import opened Query
  import opened Render
  import opened Search
  import opened Controller

  /** The labels the scenarios below expect. */
  lemma Labels()
    ensures PageText(1, 12) == "Page 1 of 12"
    ensures PageText(1, 3) == "Page 1 of 3"
    ensures PageText(1, 0) == "Page 1 of 0"
  {
    assert DigitChar(0) == '0' && DigitChar(1) == '1' && DigitChar(2) == '2' && DigitChar(3) == '3';
    assert NatToString(0) == "0" && NatToString(1) == "1" && NatToString(3) == "3";
    assert NatToString(12) == NatToString(1) + [DigitChar(2)];
  }

  /** "batman", page 1, 120 results reported with a page of ten items: "Page 1 of 12", next enabled, previous disabled, ten cards. */
  lemma FirstPageOfTwelve(inputs: Inputs, page: seq<Item>)
    requires inputs.query == "batman" && |page| == 10
    ensures var r := Step(Init(), Edited(inputs), Received(Success(Some(page), Some(120))));
      && r.view.pageInfo == "Page 1 of 12"
      && !r.view.nextDisabled && r.view.prevDisabled
      && r.view.body.Cards? && |r.view.body.cards| == 10
      && r.state == State(1, 12, "batman")
  {
    assert !Blank("batman");
    Labels();
    var s1 := Sys(Init().state.(currentPage := 1), Init().view);
    var resp := Received(Success(Some(page), Some(120)));
    assert Dispatch(Init(), Edited(inputs)) == (s1.state, Some(Call("batman", FilterOptions(1, inputs))));
    assert Step(Init(), Edited(inputs), resp) == SearchMovies(s1, Some("batman"), FilterOptions(1, inputs), resp);
    SuccessOutcome(s1, "batman", FilterOptions(1, inputs), Some(page), Some(120));
  }

  /** An API failure shows the API's own text, "Page 0 of 0", and disables both buttons. */
  lemma MovieNotFound(inputs: Inputs)
    requires inputs.query == "zzzzzznotreal"
    ensures var r := Step(Init(), Edited(inputs), Received(Failure("Movie not found!")));
      && r.view.body == Message("Movie not found!", false)
      && r.view.pageInfo == "Page 0 of 0"
      && r.view.prevDisabled && r.view.nextDisabled
  {
    assert !Blank("zzzzzznotreal");
  }

  /** An empty query sends nothing and asks for a title. */
  lemma EmptyQuery(inputs: Inputs, resp: Response)
    requires inputs.query == ""
    ensures Sent(Init(), Edited(inputs)) == None
    ensures Step(Init(), Edited(inputs), resp).view.body == Message(EmptyQueryMessage, false)
  {
    assert Blank("");
  }

  /** A server error shows the generic failure as an error, and clears the status line. */
  lemma ServerError(inputs: Inputs)
    requires inputs.query == "batman"
    ensures var r := Step(Init(), Edited(inputs), Thrown);
      && r.view.body == Message(RequestFailedMessage, true)
      && !r.view.searching
  {
    assert !Blank("batman");
  }

  /** An item with poster "N/A" and no identifier gets the placeholder and no link. */
  lemma PosterlessInertCard()
    ensures var c := ProjectCard(Item("Obscure", "2001", "movie", "N/A", ""));
      && c.image == Placeholder
      && c.link == None
      && c.subtitle == "2001 \U{2022} movie"
  {
  }

  /**
   A successful envelope with an empty list first shows "No results found."
   with "Page 0 of 0", and then the label and buttons are overwritten from
   the reported count: the message stays, but the label reads "Page 1 of 3"
   and next is enabled.
   */
  lemma EmptySuccessStillPaginates(inputs: Inputs)
    requires inputs.query == "batman"
    ensures var r := Step(Init(), Edited(inputs), Received(Success(Some([]), Some(25))));
      && r.view.body == Message(NoResultsMessage, false)
      && r.view.pageInfo == "Page 1 of 3"
      && !r.view.nextDisabled
      && r.state == State(1, 3, "batman")
  {
    assert !Blank("batman");
    var s1 := Sys(Init().state.(currentPage := 1), Init().view);
    var resp := Received(Success(Some([]), Some(25)));
    assert Dispatch(Init(), Edited(inputs)) == (s1.state, Some(Call("batman", FilterOptions(1, inputs))));
    assert Step(Init(), Edited(inputs), resp) == SearchMovies(s1, Some("batman"), FilterOptions(1, inputs), resp);
    SuccessOutcome(s1, "batman", FilterOptions(1, inputs), Some([]), Some(25));
    Labels();
    var r := Step(Init(), Edited(inputs), resp);
    assert r.state.totalPages == 3;
    assert r.view.pageInfo == PageText(1, 3);
  }

  /**
   A reported count of "0" is a non-empty string, so it is used rather than
   the list's length: ten cards are shown under "Page 1 of 0".
   */
  lemma ZeroCountBeatsList(inputs: Inputs, page: seq<Item>)
    requires inputs.query == "batman" && |page| == 10
    ensures var r := Step(Init(), Edited(inputs), Received(Success(Some(page), Some(0))));
      && r.view.body.Cards? && |r.view.body.cards| == 10
      && r.view.pageInfo == "Page 1 of 0"
      && r.view.nextDisabled && r.view.prevDisabled
  {
    assert !Blank("batman");
    var s1 := Sys(Init().state.(currentPage := 1), Init().view);
    var resp := Received(Success(Some(page), Some(0)));
    assert Dispatch(Init(), Edited(inputs)) == (s1.state, Some(Call("batman", FilterOptions(1, inputs))));
    assert Step(Init(), Edited(inputs), resp) == SearchMovies(s1, Some("batman"), FilterOptions(1, inputs), resp);
    SuccessOutcome(s1, "batman", FilterOptions(1, inputs), Some(page), Some(0));
    Labels();
  }
}
