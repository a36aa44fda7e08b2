/**
 The view of the widget and the two functions that draw into it:
 `showMessage` (index.js lines 49-53) and `renderResults` with its per-item
 card projection (index.js lines 56-91). Elements, class names and styling
 are not modelled; the view is a record of what a user can read and click.
 */
module Render {
  import opened Values
  import opened Text

  const NoResultsMessage: string := "No results found."
  const ImdbTitleBase: string := "https://www.imdb.com/title/"

  /**
   One entry of the API's result list. A missing `Poster` or `imdbID` is
   written `""`: the code only tests their truthiness, so both read alike.
   */
  datatype Item = Item(title: string, year: string, kind: string, poster: string, imdbId: string)

  /** The image of a card: the item's poster, or the built-in "No Poster" graphic. */
  datatype Image = Poster(url: string) | Placeholder

  /** A rendered card; `link` is the page opened on click, absent when the card is inert. */
  datatype Card = Card(image: Image, alt: string, title: string, subtitle: string, link: Option<string>)

  /** The content of the results area: a message, or the list of cards. */
  datatype Body = Message(text: string, isError: bool) | Cards(cards: seq<Card>)

  /**
   Everything a user sees: the results area, the pagination label, whether
   each navigation button is disabled, and whether the status line reads
   "Searching…".
   */
  datatype View = View(body: Body, pageInfo: string, prevDisabled: bool, nextDisabled: bool, searching: bool)

  /**
   `showMessage(msg, isError)`: the results area holds only the message, the
   label reads "Page 0 of 0", both buttons are disabled, and the status line
   is left as it was.
   */
  function ShowMessage(v: View, msg: string, isError: bool): (r: View)
    ensures r.body == Message(msg, isError)
    ensures r.pageInfo == "Page 0 of 0"
    ensures r.prevDisabled && r.nextDisabled
    ensures r.searching == v.searching
  {
    v.(body := Message(msg, isError), pageInfo := PageText(0, 0), prevDisabled := true, nextDisabled := true)
  }

  /** The poster test of line 66: a poster that is present and not the API's "N/A" marker. */
  predicate HasPoster(item: Item) {
    item.poster != "" && item.poster != "N/A"
  }

  /** The subtitle template, "{Year} • {Type}". */
  function Subtitle(item: Item): string {
    item.year + " \U{2022} " + item.kind
  }

  /**
   The card for one item. The image is the item's poster exactly when it has
   one, and the placeholder otherwise, so a card never points at an absent or
   "N/A" image; the card opens the item's IMDb page exactly when it has an
   identifier.
   */
  function ProjectCard(item: Item): (c: Card)
    ensures c.image.Poster? <==> HasPoster(item)
    ensures c.image.Poster? ==> c.image.url == item.poster && c.image.url != "" && c.image.url != "N/A"
    ensures c.title == item.title && c.alt == item.title + " poster"
    ensures c.subtitle == item.year + " \U{2022} " + item.kind
    ensures c.link.Some? <==> item.imdbId != ""
    ensures c.link.Some? ==> c.link.value == ImdbTitleBase + item.imdbId + "/"
  {
    var image := if HasPoster(item) then Poster(item.poster) else Placeholder;
    var link := if item.imdbId != "" then Some(ImdbTitleBase + item.imdbId + "/") else None;
    Card(image, item.title + " poster", item.title, Subtitle(item), link)
  }

  /** The `forEach` of `renderResults`: one card per item, in the list's order. */
  function ProjectCards(list: seq<Item>): (cs: seq<Card>)
    ensures |cs| == |list|
    ensures forall i :: 0 <= i < |list| ==> cs[i] == ProjectCard(list[i])
  {
    if list == [] then [] else [ProjectCard(list[0])] + ProjectCards(list[1..])
  }

  /**
   `renderResults(list)`: an empty list shows the "No results found." message
   (and so the "Page 0 of 0" label and disabled buttons); otherwise the
   results area is replaced by the cards, and the label and buttons are left
   as they were.
   */
  function RenderResults(v: View, list: seq<Item>): (r: View)
    ensures list == [] ==> r == ShowMessage(v, NoResultsMessage, false)
    ensures list != [] ==> r.body.Cards? && |r.body.cards| == |list|
    ensures list != [] ==> forall i :: 0 <= i < |list| ==> r.body.cards[i] == ProjectCard(list[i])
    ensures list != [] ==> r == v.(body := r.body)
  {
    if list == [] then ShowMessage(v, NoResultsMessage, false)
    else v.(body := Cards(ProjectCards(list)))
  }
}
