/** Reading the selected tiles of the game page (src/content/content.js:15-34
    and 184-185). The DOM query itself is an input: the tiles that carry the
    selected-card class, in document order. */
module Selection {
  import opened Dictionary

  /** A tile marked as selected: its two text properties and the integer part
      of the bottom and left edges of its bounding box. */
  datatype Tile = Tile(innerText: string, textContent: string, bottom: int, left: int)

  /** The message action that asks for the selected words. */
  const GetSelectedWords := "get_selected_words"

  /** `el.innerText || el.textContent`. */
  function TileText(t: Tile): (w: string)
    ensures w == "" <==> t.innerText == "" && t.textContent == ""
    ensures t.innerText != "" ==> w == t.innerText
    ensures t.innerText == "" ==> w == t.textContent
  {
    if t.innerText != "" then t.innerText else t.textContent
  }

  function TileTexts(tiles: seq<Tile>): (ws: seq<string>)
    ensures |ws| == |tiles|
    ensures forall i :: 0 <= i < |tiles| ==> ws[i] == TileText(tiles[i])
  {
    if tiles == [] then [] else [TileText(tiles[0])] + TileTexts(tiles[1..])
  }

  /** The runtime message listener: a request whose action is
      "get_selected_words" is answered with the text of every selected tile,
      in document order, nothing dropped; any other action gets no reply. */
  function HandleMessage(action: string, tiles: seq<Tile>): (reply: Option<seq<string>>)
    ensures reply.Some? <==> action == GetSelectedWords
    ensures reply.Some? ==> |reply.value| == |tiles|
    ensures reply.Some? ==> forall i :: 0 <= i < |tiles| ==> reply.value[i] == TileText(tiles[i])
  {
    if action == GetSelectedWords then Some(TileTexts(tiles)) else None
  }

  /** `.filter(Boolean)` on strings: the non-empty ones, in order. */
  function NonEmpty(xs: seq<string>): (r: seq<string>)
    ensures |r| <= |xs|
    ensures forall i :: 0 <= i < |r| ==> r[i] != ""
    ensures forall w :: w in r <==> w in xs && w != ""
    ensures r == [] <==> forall i :: 0 <= i < |xs| ==> xs[i] == ""
    ensures (forall i :: 0 <= i < |xs| ==> xs[i] != "") ==> r == xs
  {
    if xs == [] then []
    else if xs[0] == "" then NonEmpty(xs[1..])
    else [xs[0]] + NonEmpty(xs[1..])
  }

  /** The words the auto-define pipeline works on: the tile texts with the
      empty ones filtered out (src/content/content.js:185). */
  function SelectedWords(tiles: seq<Tile>): (words: seq<string>)
    ensures forall i :: 0 <= i < |words| ==> words[i] != ""
    ensures forall w :: w in words <==> w != "" && exists i :: 0 <= i < |tiles| && TileText(tiles[i]) == w
    ensures words == [] <==> forall i :: 0 <= i < |tiles| ==> TileText(tiles[i]) == ""
    ensures (forall i :: 0 <= i < |tiles| ==> TileText(tiles[i]) != "") ==>
      |words| == |tiles| && forall i :: 0 <= i < |tiles| ==> words[i] == TileText(tiles[i])
  {
    var texts := TileTexts(tiles);
    assert forall w :: w in texts <==> exists i :: 0 <= i < |tiles| && TileText(tiles[i]) == w by {
      forall w ensures w in texts <==> exists i :: 0 <= i < |tiles| && TileText(tiles[i]) == w {
        if w in texts {
          var i :| 0 <= i < |texts| && texts[i] == w;
          assert TileText(tiles[i]) == w;
        }
      }
    }
    NonEmpty(texts)
  }

  lemma {:induction false} TileTextsAppend(xs: seq<Tile>, ys: seq<Tile>)
    ensures TileTexts(xs + ys) == TileTexts(xs) + TileTexts(ys)
  {
    if xs == [] {
      assert xs + ys == ys;
    } else {
      assert (xs + ys)[0] == xs[0];
      assert (xs + ys)[1..] == xs[1..] + ys;
      TileTextsAppend(xs[1..], ys);
    }
  }

  /** The words keep the tiles' document order: the words of two runs of
      tiles are the words of the first run followed by those of the second. */
  lemma SelectedWordsAppend(xs: seq<Tile>, ys: seq<Tile>)
    ensures SelectedWords(xs + ys) == SelectedWords(xs) + SelectedWords(ys)
  {
    TileTextsAppend(xs, ys);
    NonEmptyAppend(TileTexts(xs), TileTexts(ys));
  }

  /** Filtering keeps the order: it distributes over concatenation. */
  lemma {:induction false} NonEmptyAppend(xs: seq<string>, ys: seq<string>)
    ensures NonEmpty(xs + ys) == NonEmpty(xs) + NonEmpty(ys)
  {
    if xs == [] {
      assert xs + ys == ys;
    } else {
      assert (xs + ys)[0] == xs[0];
      assert (xs + ys)[1..] == xs[1..] + ys;
      NonEmptyAppend(xs[1..], ys);
    }
  }

  /** Filtering twice is filtering once. */
  lemma NonEmptyIdempotent(xs: seq<string>)
    ensures NonEmpty(NonEmpty(xs)) == NonEmpty(xs)
  {
  }
}
