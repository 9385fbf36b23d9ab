/** What `showPopover` decides (src/content/content.js:62-151): the header
    text, one card per record or the "No definitions found." message, what
    each card shows, where the overlay is anchored, and the More/Less toggle
    of each card. The markup, styles and listeners are not modelled; the
    rendered structure is. */
module Overlay {
  import opened Dictionary
  import opened Details
  import opened Selection
  import opened Lookup

  // ---- Header ----

  predicate IsLowerAscii(c: char) { 'a' <= c <= 'z' }

  function UpperAscii(c: char): (u: char)
    ensures !IsLowerAscii(u)
    ensures IsLowerAscii(c) ==> u as int == c as int - 32
    ensures !IsLowerAscii(c) ==> u == c
  {
    if IsLowerAscii(c) then (c as int - 32) as char else c
  }

  /** `w.charAt(0).toUpperCase() + w.slice(1)`, for ASCII letters. */
  function Capitalize(w: string): (r: string)
    ensures |r| == |w|
    ensures |w| > 0 ==> r[0] == UpperAscii(w[0]) && !IsLowerAscii(r[0]) && r[1..] == w[1..]
    ensures |w| > 0 && !IsLowerAscii(w[0]) ==> r == w
  {
    if w == "" then "" else [UpperAscii(w[0])] + w[1..]
  }

  lemma CapitalizeIdempotent(w: string)
    ensures Capitalize(Capitalize(w)) == Capitalize(w)
  {
  }

  function Join(parts: seq<string>, sep: string): string {
    if |parts| == 0 then ""
    else if |parts| == 1 then parts[0]
    else parts[0] + sep + Join(parts[1..], sep)
  }

  function Capitalized(words: seq<string>): (cs: seq<string>)
    ensures |cs| == |words|
    ensures forall i :: 0 <= i < |words| ==> cs[i] == Capitalize(words[i])
  {
    seq(|words|, i requires 0 <= i < |words| => Capitalize(words[i]))
  }

  /** The header: every word capitalised, joined by ", " (line 67). */
  function HeaderText(words: seq<string>): string {
    Join(Capitalized(words), ", ")
  }

  /** Index of the first ',' of `s`, |s| when there is none. */
  function CommaIndex(s: string): (k: nat)
    ensures k <= |s|
    ensures forall j :: 0 <= j < k ==> s[j] != ','
    ensures k < |s| ==> s[k] == ','
  {
    if s == [] then 0 else if s[0] == ',' then 0 else 1 + CommaIndex(s[1..])
  }

  /** Reads a header back into its parts, splitting at each ", ". */
  function SplitHeader(s: string): seq<string>
    decreases |s|
  {
    var k := CommaIndex(s);
    if k == |s| then [s]
    else if k + 2 <= |s| then [s[..k]] + SplitHeader(s[k + 2..])
    else [s[..k]]
  }

  lemma {:induction false} CommaIndexAfter(p: string, t: string)
    requires forall j :: 0 <= j < |p| ==> p[j] != ','
    ensures CommaIndex(p + ", " + t) == |p|
  {
    if p != [] {
      assert (p + ", " + t)[1..] == p[1..] + ", " + t;
      CommaIndexAfter(p[1..], t);
    }
  }

  /** Splitting a joined list gives the list back, when no part has a comma. */
  lemma {:induction false} SplitJoin(parts: seq<string>)
    requires parts != []
    requires forall i, j :: 0 <= i < |parts| && 0 <= j < |parts[i]| ==> parts[i][j] != ','
    ensures SplitHeader(Join(parts, ", ")) == parts
  {
    if |parts| == 1 {
      assert CommaIndex(parts[0]) == |parts[0]|;
    } else {
      var p, t := parts[0], Join(parts[1..], ", ");
      var s := p + ", " + t;
      CommaIndexAfter(p, t);
      assert s[..|p|] == p;
      assert s[|p| + 2..] == t;
      SplitJoin(parts[1..]);
      assert [p] + parts[1..] == parts;
    }
  }

  /** The header lists every selected word, capitalised, in selection order
      and nothing else: splitting it at ", " gives back the capitalised
      words (for words without a comma, which the game's tile texts are taken
      not to have). */
  lemma HeaderListsWords(words: seq<string>)
    requires words != []
    requires forall i, j :: 0 <= i < |words| && 0 <= j < |words[i]| ==> words[i][j] != ','
    ensures SplitHeader(HeaderText(words)) == Capitalized(words)
  {
    var cs := Capitalized(words);
    forall i, j | 0 <= i < |cs| && 0 <= j < |cs[i]| ensures cs[i][j] != ',' {
      if j == 0 { assert cs[i][0] == UpperAscii(words[i][0]); }
      else { assert cs[i][j] == cs[i][1..][j - 1] == words[i][1..][j - 1]; }
    }
    SplitJoin(cs);
  }

  // ---- Cards ----

  /** The short definition as line 79 computes it: the first definition of
      the first meaning, else "". */
  function ShortDefinitionAsWritten(r: Record): (s: string)
    ensures |r.meanings| > 0 && |r.meanings[0].definitions| > 0 ==> s == r.meanings[0].definitions[0].definition
    ensures (|r.meanings| == 0 || |r.meanings[0].definitions| == 0) ==> s == ""
  {
    if |r.meanings| > 0 && |r.meanings[0].definitions| > 0 then r.meanings[0].definitions[0].definition else ""
  }

  /** The placeholder texts the content script stores in the `definition`
      field are never shown: a failed lookup's card and the loading card
      both get an empty short definition. */
  lemma PlaceholderNoteNotShown(word: string)
    ensures Placeholder(word).note == Some(NoDefinitionNote) && ShortDefinitionAsWritten(Placeholder(word)) == ""
    ensures Loading.note == Some(LoadingNote) && ShortDefinitionAsWritten(Loading) == ""
  {
  }

  /** The short definition with the placeholder's note as its fallback: the
      first definition of the first meaning, else the note, else "". */
  function ShortDefinition(r: Record): (s: string)
    ensures |r.meanings| > 0 && |r.meanings[0].definitions| > 0 ==> s == ShortDefinitionAsWritten(r)
    ensures (|r.meanings| == 0 || |r.meanings[0].definitions| == 0) ==> s == (if r.note.Some? then r.note.value else "")
  {
    if |r.meanings| > 0 && |r.meanings[0].definitions| > 0 then r.meanings[0].definitions[0].definition
    else if r.note.Some? then r.note.value
    else ""
  }

  /** With the fallback, a failed lookup shows "No definition found." and the
      loading card shows its loading text, while every record with a
      definition shows what it showed before. */
  lemma PlaceholderNoteShown(word: string, r: Record)
    ensures ShortDefinition(Placeholder(word)) == NoDefinitionNote
    ensures ShortDefinition(Loading) == LoadingNote
    ensures r.note.None? ==> ShortDefinition(r) == ShortDefinitionAsWritten(r)
  {
  }

  const MoreLabel := "More..."
  const LessLabel := "Less"

  /** One card: summary (word, pronunciation, short definition, details
      button) and the details block (all meanings, origin when truthy);
      `detailsShown` is the details block's display not being 'none'. */
  datatype Card = Card(
    word: string,
    pronunciation: Option<Pronunciation>,
    shortDefinition: string,
    details: seq<Line>,
    origin: Option<string>,
    detailsShown: bool,
    buttonLabel: string)

  /** The card of one record. Its short definition follows the corrected
      rule `ShortDefinition`; it differs from line 79 only on the two
      placeholder records (see `CardMatchesSourceOnLookups`). */
  function CardFor(r: Record): (c: Card)
    ensures c.word == r.word && c.details == DetailLines(r.meanings)
    ensures c.pronunciation == PronunciationOf(r.phonetic, r.audio)
    ensures c.shortDefinition == ShortDefinition(r)
    ensures r.note.None? ==> c.shortDefinition == ShortDefinitionAsWritten(r)
    ensures !c.detailsShown && c.buttonLabel == MoreLabel
    ensures c.origin.Some? <==> r.origin != ""
    ensures c.origin.Some? ==> c.origin.value == r.origin
  {
    Card(r.word, PronunciationOf(r.phonetic, r.audio), ShortDefinition(r), DetailLines(r.meanings),
      if r.origin != "" then Some(r.origin) else None, false, MoreLabel)
  }

  /** On every record a successful lookup produces, the card shows exactly
      the short definition of line 79; only the failure and loading
      placeholders show their fallback text instead of "". */
  lemma CardMatchesSourceOnLookups(word: string, resp: Response)
    ensures Readable(resp) ==> CardFor(Normalize(word, resp)).shortDefinition == ShortDefinitionAsWritten(Normalize(word, resp))
    ensures !Readable(resp) ==> CardFor(Normalize(word, resp)).shortDefinition == NoDefinitionNote
    ensures !Readable(resp) ==> ShortDefinitionAsWritten(Normalize(word, resp)) == ""
  {
  }

  datatype Body = NoDefinitions | Cards(cards: seq<Card>)

  const NoDefinitionsMessage := "No definitions found."

  // ---- Anchor ----

  /** TopRight is top 30px, right 30px; Below is a page position. */
  datatype Anchor = TopRight | Below(top: int, left: int)

  datatype Scroll = Scroll(x: int, y: int)

  const TopRightSetting := "top-right"

  /** Lines 112-126: the configured corner, else just under the first
      selected tile, else the corner. */
  function AnchorFor(position: string, firstTile: Option<Tile>, scroll: Scroll): (a: Anchor)
    ensures position == TopRightSetting ==> a == TopRight
    ensures position != TopRightSetting && firstTile.Some? ==>
      a == Below(scroll.y + firstTile.value.bottom + 8, scroll.x + firstTile.value.left)
    ensures firstTile.None? ==> a == TopRight
  {
    if position == TopRightSetting then TopRight
    else if firstTile.Some? then Below(scroll.y + firstTile.value.bottom + 8, scroll.x + firstTile.value.left)
    else TopRight
  }

  /** `document.querySelector` of the selected class: the first marked tile,
      whether or not its text is empty. */
  function FirstTile(tiles: seq<Tile>): Option<Tile> {
    if tiles == [] then None else Some(tiles[0])
  }

  // ---- The overlay ----

  datatype View = View(header: string, body: Body, anchor: Anchor)

  function CardsFor(records: seq<Record>): (cs: seq<Card>)
    ensures |cs| == |records|
    ensures forall i :: 0 <= i < |records| ==> cs[i] == CardFor(records[i])
  {
    seq(|records|, i requires 0 <= i < |records| => CardFor(records[i]))
  }

  /** The overlay `showPopover(words, definitions)` creates. */
  function ViewFor(words: seq<string>, records: seq<Record>, position: string, tiles: seq<Tile>, scroll: Scroll): (v: View)
    ensures v.header == HeaderText(words)
    ensures v.body.NoDefinitions? <==> records == []
    ensures v.body.Cards? ==> |v.body.cards| == |records|
    ensures v.body.Cards? ==> forall i :: 0 <= i < |records| ==> v.body.cards[i] == CardFor(records[i])
    ensures v.anchor == AnchorFor(position, FirstTile(tiles), scroll)
  {
    View(HeaderText(words),
      if records == [] then NoDefinitions else Cards(CardsFor(records)),
      AnchorFor(position, FirstTile(tiles), scroll))
  }

  /** Builds the overlay: `definitions.map` over the records, each card's
      meanings accumulated by the nested loops. */
  method BuildView(words: seq<string>, records: seq<Record>, position: string, tiles: seq<Tile>, scroll: Scroll)
    returns (v: View)
    ensures v == ViewFor(words, records, position, tiles, scroll)
  {
    var header := HeaderText(words);
    var body: Body;
    if |records| == 0 {
      body := NoDefinitions;
    } else {
      var cards: seq<Card> := [];
      var idx := 0;
      while idx < |records|
        invariant 0 <= idx <= |records|
        invariant |cards| == idx
        invariant forall k :: 0 <= k < idx ==> cards[k] == CardFor(records[k])
      {
        var d := records[idx];
        var meaningsLines := RenderMeanings(d.meanings);
        var origin := if d.origin != "" then Some(d.origin) else None;
        cards := cards + [Card(d.word, PronunciationOf(d.phonetic, d.audio), ShortDefinition(d),
          meaningsLines, origin, false, MoreLabel)];
        idx := idx + 1;
      }
      assert cards == CardsFor(records);
      body := Cards(cards);
    }
    var anchor := AnchorFor(position, FirstTile(tiles), scroll);
    v := View(header, body, anchor);
  }

  // ---- Details toggle ----

  /** The button reads "Less" exactly when the details are shown. */
  predicate LabelMatches(c: Card) {
    c.buttonLabel == (if c.detailsShown then LessLabel else MoreLabel)
  }

  predicate LabelsMatch(v: View) {
    v.body.Cards? ==> forall i :: 0 <= i < |v.body.cards| ==> LabelMatches(v.body.cards[i])
  }

  /** Lines 142-148: hidden details are shown and the button says "Less";
      otherwise they are hidden and it says "More...". */
  function Toggle(c: Card): (t: Card)
    ensures t.detailsShown == !c.detailsShown
    ensures LabelMatches(t)
    ensures t == c.(detailsShown := t.detailsShown, buttonLabel := t.buttonLabel)
  {
    if !c.detailsShown then c.(detailsShown := true, buttonLabel := LessLabel)
    else c.(detailsShown := false, buttonLabel := MoreLabel)
  }

  /** Toggling twice restores the card. */
  lemma ToggleTwice(c: Card)
    requires LabelMatches(c)
    ensures Toggle(Toggle(c)) == c
  {
  }

  /** A click on the details button of card `idx` toggles that card only. */
  function ToggleCard(v: View, idx: nat): (w: View)
    requires v.body.Cards? && idx < |v.body.cards|
    ensures w.header == v.header && w.anchor == v.anchor && w.body.Cards?
    ensures |w.body.cards| == |v.body.cards|
    ensures w.body.cards[idx] == Toggle(v.body.cards[idx])
    ensures forall i :: 0 <= i < |v.body.cards| && i != idx ==> w.body.cards[i] == v.body.cards[i]
    ensures LabelsMatch(v) ==> LabelsMatch(w)
  {
    v.(body := Cards(v.body.cards[idx := Toggle(v.body.cards[idx])]))
  }

  lemma ToggleCardTwice(v: View, idx: nat)
    requires v.body.Cards? && idx < |v.body.cards| && LabelsMatch(v)
    ensures ToggleCard(ToggleCard(v, idx), idx) == v
  {
    var w := ToggleCard(ToggleCard(v, idx), idx);
    ToggleTwice(v.body.cards[idx]);
    assert w.body.cards == v.body.cards;
  }

  /** A freshly built overlay has every card collapsed, labelled "More...". */
  lemma FreshViewCollapsed(words: seq<string>, records: seq<Record>, position: string, tiles: seq<Tile>, scroll: Scroll)
    ensures LabelsMatch(ViewFor(words, records, position, tiles, scroll))
    ensures var v := ViewFor(words, records, position, tiles, scroll);
      v.body.Cards? ==> forall i :: 0 <= i < |v.body.cards| ==> !v.body.cards[i].detailsShown
  {
  }

  /** The URL a click on card `idx`'s audio button plays, if the card has one. */
  function AudioToPlay(v: View, idx: nat): (u: Option<string>)
    requires v.body.Cards? && idx < |v.body.cards|
    ensures u.Some? <==> v.body.cards[idx].pronunciation.Some? && v.body.cards[idx].pronunciation.value.audioButton.Some?
    ensures u.Some? ==> u.value == PlayableUrl(v.body.cards[idx].pronunciation.value.audioButton.value)
    ensures u.Some? ==> StartsWith(u.value, "http")
  {
    var c := v.body.cards[idx];
    if c.pronunciation.Some? && c.pronunciation.value.audioButton.Some?
    then Some(PlayableUrl(c.pronunciation.value.audioButton.value))
    else None
  }

  /** A card's audio button plays its record's own audio URL, made playable;
      there is a button iff the record has both a phonetic text and an audio
      URL. */
  lemma CardPlaysRecordAudio(words: seq<string>, records: seq<Record>, position: string, tiles: seq<Tile>,
                             scroll: Scroll, idx: nat)
    requires idx < |records|
    ensures var v := ViewFor(words, records, position, tiles, scroll);
      AudioToPlay(v, idx) ==
        if records[idx].phonetic != "" && records[idx].audio != "" then Some(PlayableUrl(records[idx].audio))
        else None
  {
  }
}
