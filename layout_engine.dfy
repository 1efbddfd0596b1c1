/** The card-grid serialiser: turns a list of card records into the HTML
    fragment that the publisher appends to a gem's body. */
module LayoutEngine {
  import opened Common

  /** A card record. `title` is read without a default, so it is required;
      every other key may be missing (`None`). */
  datatype Card = Card(
    title: string,
    link: Option<string>,
    eyebrow: Option<string>,
    subtitle: Option<string>,
    body: Option<string>,
    citation: Option<string>,
    iconUrl: Option<string>,
    bgImage: Option<string>,
    tags: Option<seq<string>>)

  const GridOpen := "<div class=\"st-grid-wrapper\">"
  const GridClose := "</div>"

  /** The values a card's template is filled with, after the `.get` defaults. */
  datatype CardView = CardView(
    eyebrow: string, link: string, title: string, subtitle: string,
    body: string, citation: string, iconUrl: string)

  function View(card: Card): CardView {
    CardView(
      GetOr(card.eyebrow, "SUGARTOWN"), GetOr(card.link, "#"), card.title,
      GetOr(card.subtitle, ""), GetOr(card.body, ""), GetOr(card.citation, ""),
      GetOr(card.iconUrl, ""))
  }

  /** A missing key takes its default; a present key, even an empty one, is used as is. */
  lemma ViewDefaults(card: Card)
    ensures View(card).eyebrow == (if card.eyebrow.None? then "SUGARTOWN" else card.eyebrow.value)
    ensures View(card).link == (if card.link.None? then "#" else card.link.value)
    ensures View(card).subtitle == (if card.subtitle.None? then "" else card.subtitle.value)
    ensures View(card).body == (if card.body.None? then "" else card.body.value)
    ensures View(card).citation == (if card.citation.None? then "" else card.citation.value)
    ensures View(card).iconUrl == (if card.iconUrl.None? then "" else card.iconUrl.value)
    ensures View(card).title == card.title
  {
  }

  /** The background style attribute: only for a truthy `bg_image`. */
  function BgStyle(card: Card): string {
    if Truthy(card.bgImage) then " style=\"background-image: url('" + card.bgImage.value + "');\"" else ""
  }

  function TagSpan(t: string): string {
    "<span class=\"pink-card__tag\">" + t + "</span>"
  }

  function TagSpans(tags: seq<string>): (r: seq<string>)
    ensures |r| == |tags|
    ensures forall i :: 0 <= i < |tags| ==> r[i] == TagSpan(tags[i])
  {
    seq(|tags|, i requires 0 <= i < |tags| => TagSpan(tags[i]))
  }

  predicate HasTags(card: Card) {
    card.tags.Some? && card.tags.value != []
  }

  function TagsHtml(card: Card): string {
    if HasTags(card) then
      "<div class=\"wp-block-post-terms\">" + Join(TagSpans(card.tags.value), " ") + "</div>"
    else ""
  }

  lemma BgStyleIffImage(card: Card)
    ensures BgStyle(card) != "" <==> Truthy(card.bgImage)
    ensures Truthy(card.bgImage) ==> Contains(BgStyle(card), card.bgImage.value)
  {
    if Truthy(card.bgImage) {
      var pre := " style=\"background-image: url('";
      assert OccursAt(BgStyle(card), card.bgImage.value, |pre|);
    }
  }

  /** The tags div is there exactly when the card has tags: one span per tag, in order, joined by spaces. */
  lemma TagsHtmlIffTags(card: Card)
    ensures TagsHtml(card) != "" <==> HasTags(card)
    ensures HasTags(card) ==>
      TagsHtml(card) == "<div class=\"wp-block-post-terms\">" + Join(TagSpans(card.tags.value), " ") + "</div>"
    ensures HasTags(card) ==> |TagSpans(card.tags.value)| == |card.tags.value|
  {
  }

  // The fixed text between the template's substitutions, line for line.
  const CardT0 := "\n    <div class=\"pink-card\">\n        <div class=\"pink-card__bg\""
  const CardT1 := "></div>\n        \n        <div class=\"pink-card__content\">\n            <p class=\"pink-card__eyebrow\">"
  const CardT2 := "</p>\n            <h2 class=\"pink-card__title\"><a href=\""
  const CardT3 := "\">"
  const CardT4 := "</a></h2>\n            <h3 class=\"pink-card__subtitle\">"
  const CardT5 := "</h3>\n            <p class=\"pink-card__body\">"
  const CardT6 := "</p>\n            \n            <div class=\"pink-card__citation\">\n                "
  const CardT7 := "\n            </div>\n            \n            "
  const CardT8 := "\n        </div>\n\n        <div class=\"pink-card__media\">\n            <img src=\""
  const CardT9 := "\" alt=\""
  const CardT10 := " Icon\" loading=\"lazy\" />\n        </div>\n    </div>"

  /** One card's fragment: the template of the source with its eleven substitutions. */
  function CardHtml(card: Card): string {
    var v := View(card);
    CardT0 + BgStyle(card) + CardT1 + v.eyebrow + CardT2 + v.link + CardT3 + v.title
    + CardT4 + v.subtitle + CardT5 + v.body + CardT6 + v.citation + CardT7 + TagsHtml(card)
    + CardT8 + v.iconUrl + CardT9 + v.title + CardT10
  }

  /** One fragment per card, in input order. */
  function CardFragments(cards: seq<Card>): (r: seq<string>)
    ensures |r| == |cards|
    ensures forall i :: 0 <= i < |cards| ==> r[i] == CardHtml(cards[i])
  {
    seq(|cards|, i requires 0 <= i < |cards| => CardHtml(cards[i]))
  }

  /** The parts `html_output` holds just before it is joined. */
  function GridParts(cards: seq<Card>): (r: seq<string>)
    ensures |r| == |cards| + 2
    ensures r[0] == GridOpen && r[|r| - 1] == GridClose
    ensures r[1..|r| - 1] == CardFragments(cards)
  {
    var r := [GridOpen] + CardFragments(cards) + [GridClose];
    assert r[1..|r| - 1] == CardFragments(cards);
    r
  }

  /** The grid starts with the wrapper and a newline and ends with a newline and the closing tag;
      an empty list gives exactly those two lines. */
  lemma {:induction false} GridShape(cards: seq<Card>)
    ensures GridOpen + "\n" <= Join(GridParts(cards), "\n")
    ensures EndsWith(Join(GridParts(cards), "\n"), "\n" + GridClose)
    ensures cards == [] ==> Join(GridParts(cards), "\n") == GridOpen + "\n" + GridClose
  {
    var parts := GridParts(cards);
    JoinEnds(parts, "\n");
    if cards == [] {
      assert parts == [GridOpen, GridClose];
    }
  }

  /** `generate_pink_card_grid`: one fragment appended per card, in order, then joined by newlines. */
  method GeneratePinkCardGrid(cards: seq<Card>) returns (html: string)
    ensures html == Join(GridParts(cards), "\n")
  {
    var htmlOutput := [GridOpen];
    var i := 0;
    while i < |cards|
      invariant 0 <= i <= |cards|
      invariant htmlOutput == [GridOpen] + CardFragments(cards)[..i]
    {
      assert CardFragments(cards)[..i + 1] == CardFragments(cards)[..i] + [CardHtml(cards[i])];
      htmlOutput := htmlOutput + [CardHtml(cards[i])];
      i := i + 1;
    }
    assert CardFragments(cards)[..i] == CardFragments(cards);
    htmlOutput := htmlOutput + [GridClose];
    html := Join(htmlOutput, "\n");
  }
}
