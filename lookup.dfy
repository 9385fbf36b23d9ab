/** The content script's `fetchDefinitions` (src/content/content.js:154-178):
    one lookup per word, in order, each normalised into a definition record.
    The HTTP request and the JSON parsing are the `lookup` oracle. */
module Lookup {
  import opened Dictionary

  /** The record the overlay renders. `note` is the extra `definition` field
      that only the failure and loading placeholders carry. */
  datatype Record = Record(
    word: string,
    phonetic: string,
    audio: string,
    meanings: seq<Meaning>,
    origin: string,
    note: Option<string>)

  const NoDefinitionNote := "No definition found."
  const LoadingNote := "<span class=\"definer-loading\">Loading...</span>"

  /** The record pushed when a lookup fails in any way (src/content/content.js:174). */
  function Placeholder(word: string): (r: Record)
    ensures r.word == word && r.note == Some(NoDefinitionNote)
    ensures r.phonetic == "" && r.audio == "" && r.meanings == [] && r.origin == ""
  {
    Record(word, "", "", [], "", Some(NoDefinitionNote))
  }

  /** The single record of the loading overlay (src/content/content.js:193);
      it has no audio, meanings or origin field. */
  const Loading := Record("", "", "", [], "", Some(LoadingNote))

  /** The record of one word given what its lookup returned: a placeholder
      unless the response is readable, else the fields of the first entry. */
  function Normalize(word: string, resp: Response): (r: Record)
    ensures r.note.Some? <==> !Readable(resp)
    ensures !Readable(resp) ==> r == Placeholder(word)
    ensures Readable(resp) ==> r.word == FirstEntry(resp).word
    ensures Readable(resp) ==> r.phonetic == PhoneticOf(FirstEntry(resp)) && r.audio == AudioOf(FirstEntry(resp))
    ensures Readable(resp) ==> r.meanings == FirstEntry(resp).meanings && r.origin == FirstEntry(resp).origin
  {
    if !Readable(resp) then Placeholder(word)
    else
      var e := FirstEntry(resp);
      Record(e.word, PhoneticOf(e), AudioOf(e), e.meanings, e.origin, None)
  }

  /** The records of a whole selection, one per word, in input order. */
  function Definitions(words: seq<string>, lookup: string -> Response): (defs: seq<Record>)
    ensures |defs| == |words|
    ensures forall i :: 0 <= i < |words| ==> defs[i] == Normalize(words[i], lookup(words[i]))
  {
    if words == [] then []
    else [Normalize(words[0], lookup(words[0]))] + Definitions(words[1..], lookup)
  }

  /** The sequential loop: each word is looked up in turn and its record
      pushed onto `defs`; a failure pushes the placeholder and the loop goes on. */
  method FetchDefinitions(words: seq<string>, lookup: string -> Response) returns (defs: seq<Record>)
    ensures defs == Definitions(words, lookup)
  {
    defs := [];
    var i := 0;
    while i < |words|
      invariant 0 <= i <= |words|
      invariant |defs| == i
      invariant forall k :: 0 <= k < i ==> defs[k] == Normalize(words[k], lookup(words[k]))
    {
      var word := words[i];
      var resp := lookup(word);
      var record: Record;
      if Readable(resp) {
        var entry := resp.entries[0];
        var audio := AudioOf(entry);
        record := Record(entry.word, PhoneticOf(entry), audio, entry.meanings, entry.origin, None);
      } else {
        record := Placeholder(word);
      }
      defs := defs + [record];
      i := i + 1;
    }
  }

  /** A lookup that finds nothing gives a record with no meanings and a
      fallback text, never an error. */
  lemma FailedLookupHasFallback(word: string, lookup: string -> Response)
    requires lookup(word) == NotOk
    ensures Definitions([word], lookup) == [Placeholder(word)]
    ensures Definitions([word], lookup)[0].meanings == []
    ensures Definitions([word], lookup)[0].note == Some(NoDefinitionNote)
  {
  }

  /** The records of a selection are the records of its parts, so the
      records come out in the order the words went in. */
  lemma {:induction false} DefinitionsAppend(xs: seq<string>, ys: seq<string>, lookup: string -> Response)
    ensures Definitions(xs + ys, lookup) == Definitions(xs, lookup) + Definitions(ys, lookup)
  {
    if xs == [] {
      assert xs + ys == ys;
    } else {
      assert (xs + ys)[0] == xs[0];
      assert (xs + ys)[1..] == xs[1..] + ys;
      DefinitionsAppend(xs[1..], ys, lookup);
    }
  }
}
