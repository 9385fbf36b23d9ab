/** The parts of a rendered definition that both the overlay cards of the
    content script and the result items of the popup build the same way: the
    pronunciation line with its optional audio button, and the full list of
    meanings, which both scripts accumulate with nested forEach loops
    (src/content/content.js:87-100, src/popup/popup.js:104-117). */
module Details {
  import opened Dictionary

  /** One rendered piece of the meanings list, in document order: the bold
      part of speech that opens a meaning, or one list item with its example
      line, which is present only when the example is truthy. */
  datatype Line =
    | PartOfSpeech(pos: string)
    | Item(definition: string, example: Option<string>)

  function ItemLine(d: Definition): Line {
    Item(d.definition, if d.example != "" then Some(d.example) else None)
  }

  function ItemLines(ds: seq<Definition>): seq<Line> {
    if ds == [] then [] else [ItemLine(ds[0])] + ItemLines(ds[1..])
  }

  function MeaningLines(m: Meaning): seq<Line> {
    [PartOfSpeech(m.partOfSpeech)] + ItemLines(m.definitions)
  }

  /** Every meaning, each followed by all of its definitions, in order. */
  function DetailLines(ms: seq<Meaning>): seq<Line> {
    if ms == [] then [] else MeaningLines(ms[0]) + DetailLines(ms[1..])
  }

  lemma {:induction false} ItemLinesSnoc(ds: seq<Definition>, d: Definition)
    ensures ItemLines(ds + [d]) == ItemLines(ds) + [ItemLine(d)]
  {
    if ds == [] {
      assert ds + [d] == [d];
    } else {
      assert (ds + [d])[1..] == ds[1..] + [d];
      ItemLinesSnoc(ds[1..], d);
    }
  }

  lemma {:induction false} DetailLinesSnoc(ms: seq<Meaning>, m: Meaning)
    ensures DetailLines(ms + [m]) == DetailLines(ms) + MeaningLines(m)
  {
    if ms == [] {
      assert ms + [m] == [m];
      assert DetailLines([m][1..]) == [];
    } else {
      assert (ms + [m])[1..] == ms[1..] + [m];
      DetailLinesSnoc(ms[1..], m);
    }
  }

  /** The nested loops of both scripts: one heading per meaning, one item
      per definition, appended in order. */
  method RenderMeanings(ms: seq<Meaning>) returns (lines: seq<Line>)
    ensures lines == DetailLines(ms)
  {
    lines := [];
    var i := 0;
    while i < |ms|
      invariant 0 <= i <= |ms|
      invariant lines == DetailLines(ms[..i])
    {
      var m := ms[i];
      lines := lines + [PartOfSpeech(m.partOfSpeech)];
      var j := 0;
      while j < |m.definitions|
        invariant 0 <= j <= |m.definitions|
        invariant lines == DetailLines(ms[..i]) + [PartOfSpeech(m.partOfSpeech)] + ItemLines(m.definitions[..j])
      {
        ItemLinesSnoc(m.definitions[..j], m.definitions[j]);
        assert m.definitions[..j + 1] == m.definitions[..j] + [m.definitions[j]];
        lines := lines + [ItemLine(m.definitions[j])];
        j := j + 1;
      }
      assert m.definitions[..j] == m.definitions;
      DetailLinesSnoc(ms[..i], m);
      assert ms[..i + 1] == ms[..i] + [m];
      i := i + 1;
    }
    assert ms[..i] == ms;
  }

  // ---- The rendering loses nothing: the meanings can be read back ----

  function Unitem(l: Line): Definition
    requires l.Item?
  {
    Definition(l.definition, if l.example.Some? then l.example.value else "")
  }

  /** Splits off the items that follow a heading, up to the next heading. */
  function TakeItems(lines: seq<Line>): (r: (seq<Definition>, seq<Line>))
    ensures |r.1| <= |lines|
  {
    if lines == [] || lines[0].PartOfSpeech? then ([], lines)
    else
      var (ds, rest) := TakeItems(lines[1..]);
      ([Unitem(lines[0])] + ds, rest)
  }

  /** Reads a rendered meanings list back into meanings; items before the
      first heading (which DetailLines never produces) are dropped. */
  function Regroup(lines: seq<Line>): seq<Meaning>
    decreases |lines|
  {
    if lines == [] then []
    else if lines[0].PartOfSpeech? then
      var (ds, rest) := TakeItems(lines[1..]);
      [Meaning(lines[0].pos, ds)] + Regroup(rest)
    else Regroup(lines[1..])
  }

  lemma {:induction false} TakeItemsOf(ds: seq<Definition>, tail: seq<Line>)
    requires tail == [] || tail[0].PartOfSpeech?
    ensures TakeItems(ItemLines(ds) + tail) == (ds, tail)
  {
    if ds == [] {
      assert ItemLines(ds) + tail == tail;
    } else {
      var lines := ItemLines(ds) + tail;
      assert lines == [ItemLine(ds[0])] + (ItemLines(ds[1..]) + tail);
      assert lines[0].Item? && lines[1..] == ItemLines(ds[1..]) + tail;
      TakeItemsOf(ds[1..], tail);
      assert Unitem(lines[0]) == ds[0];
      assert [ds[0]] + ds[1..] == ds;
    }
  }

  /** The rendered list opens with a part-of-speech heading unless it is
      empty, so no item comes before the first heading and `Regroup` drops
      nothing of it. */
  lemma DetailLinesStartWithHeading(ms: seq<Meaning>)
    ensures DetailLines(ms) == [] <==> ms == []
    ensures ms != [] ==> DetailLines(ms)[0] == PartOfSpeech(ms[0].partOfSpeech)
  {
    if ms != [] {
      assert DetailLines(ms) == MeaningLines(ms[0]) + DetailLines(ms[1..]);
    }
  }

  /** Every meaning and every definition the source lists is on the
      rendered list, in order, with nothing added: reading the lines back
      gives the meanings that were rendered. */
  lemma {:induction false} RegroupDetailLines(ms: seq<Meaning>)
    ensures Regroup(DetailLines(ms)) == ms
  {
    if ms != [] {
      var tail := DetailLines(ms[1..]);
      DetailLinesStartWithHeading(ms[1..]);
      var lines := DetailLines(ms);
      assert lines == [PartOfSpeech(ms[0].partOfSpeech)] + (ItemLines(ms[0].definitions) + tail);
      assert lines[1..] == ItemLines(ms[0].definitions) + tail;
      TakeItemsOf(ms[0].definitions, tail);
      RegroupDetailLines(ms[1..]);
    }
  }

  /** The pronunciation line of a card or result item: shown only when the
      phonetic text is truthy, and the audio button inside it only when the
      audio URL is truthy as well (src/content/content.js:75-82,
      src/popup/popup.js:126-132). */
  datatype Pronunciation = Pronunciation(text: string, audioButton: Option<string>)

  function PronunciationOf(phonetic: string, audio: string): (p: Option<Pronunciation>)
    ensures p.Some? <==> phonetic != ""
    ensures p.Some? ==> p.value.text == phonetic
    ensures p.Some? && p.value.audioButton.Some? <==> phonetic != "" && audio != ""
    ensures p.Some? && p.value.audioButton.Some? ==> p.value.audioButton.value == audio
  {
    if phonetic == "" then None
    else Some(Pronunciation(phonetic, if audio != "" then Some(audio) else None))
  }
}
