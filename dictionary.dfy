/** The JSON shape of a dictionary lookup, as both the content script and the
    popup read it, and the field extraction the two share: the phonetic text
    and audio URL precedence, when reading an entry throws, and how an audio
    URL is made playable. */
module Dictionary {

  datatype Option<+T> = None | Some(value: T)

  /** One item of an entry's `phonetics` array; a missing field is "". */
  datatype Phonetic = Phonetic(text: string, audio: string)

  /** One definition of a meaning; a missing `example` is "". */
  datatype Definition = Definition(definition: string, example: string)

  /** A missing `definitions` array is modelled as the empty one: every reader
      guards it with Array.isArray, so the two render alike. */
  datatype Meaning = Meaning(partOfSpeech: string, definitions: seq<Definition>)

  /** The first element of the response array. `phonetics` is None when the
      field is missing, and then reading the entry throws. A missing
      `meanings` is the empty sequence, a missing `phonetic`/`origin` is "". */
  datatype Entry = Entry(
    word: string,
    phonetic: string,
    phonetics: Option<seq<Phonetic>>,
    meanings: seq<Meaning>,
    origin: string)

  /** What fetching the lookup URL of one word yields. */
  datatype Response =
    | NotOk                     // an HTTP status outside the success range
    | Threw(message: string)    // fetch rejected, or the body was not JSON
    | Json(entries: seq<Entry>) // the parsed array

  /** Reading `data[0].phonetics` succeeds: the array has a first entry and
      that entry has a phonetics array. Both scripts touch exactly these. */
  predicate Readable(resp: Response) {
    resp.Json? && |resp.entries| > 0 && resp.entries[0].phonetics.Some?
  }

  function FirstEntry(resp: Response): (e: Entry)
    requires Readable(resp)
    ensures e.phonetics.Some?
  {
    resp.entries[0]
  }

  /** Index of the first non-empty (truthy) string, |xs| when there is none;
      the index `Array.prototype.find` stops at. */
  function FirstTruthyIndex(xs: seq<string>): (k: nat)
    ensures k <= |xs|
    ensures forall j :: 0 <= j < k ==> xs[j] == ""
    ensures k < |xs| ==> xs[k] != ""
  {
    if |xs| == 0 then 0
    else if xs[0] != "" then 0
    else 1 + FirstTruthyIndex(xs[1..])
  }

  /** `xs[k]` is the first truthy string of `xs`. */
  predicate FirstTruthyAt(xs: seq<string>, k: int) {
    0 <= k < |xs| && xs[k] != "" && forall j :: 0 <= j < k ==> xs[j] == ""
  }

  /** `(xs.find(x => x) || {}) ... || ''`: the first truthy string, else "". */
  function FirstTruthy(xs: seq<string>): (r: string)
    ensures r == "" <==> forall i :: 0 <= i < |xs| ==> xs[i] == ""
    ensures forall k :: FirstTruthyAt(xs, k) ==> r == xs[k]
  {
    var k := FirstTruthyIndex(xs);
    if k < |xs| then xs[k] else ""
  }

  function Texts(ps: seq<Phonetic>): (ts: seq<string>)
    ensures |ts| == |ps| && forall i :: 0 <= i < |ps| ==> ts[i] == ps[i].text
  {
    seq(|ps|, i requires 0 <= i < |ps| => ps[i].text)
  }

  function Audios(ps: seq<Phonetic>): (us: seq<string>)
    ensures |us| == |ps| && forall i :: 0 <= i < |ps| ==> us[i] == ps[i].audio
  {
    seq(|ps|, i requires 0 <= i < |ps| => ps[i].audio)
  }

  /** `entry.phonetic || (entry.phonetics.find(p => p.text) || {}).text || ''`
      (src/content/content.js:168, src/popup/popup.js:100). */
  function PhoneticOf(e: Entry): (r: string)
    requires e.phonetics.Some?
    ensures e.phonetic != "" ==> r == e.phonetic
    ensures e.phonetic == "" ==>
      (r == "" <==> forall i :: 0 <= i < |e.phonetics.value| ==> e.phonetics.value[i].text == "")
    ensures e.phonetic == "" ==>
      forall k :: FirstTruthyAt(Texts(e.phonetics.value), k) ==> r == e.phonetics.value[k].text
  {
    if e.phonetic != "" then e.phonetic else FirstTruthy(Texts(e.phonetics.value))
  }

  /** `(entry.phonetics.find(p => p.audio) || {}).audio || ''`
      (src/content/content.js:165, src/popup/popup.js:102). */
  function AudioOf(e: Entry): (r: string)
    requires e.phonetics.Some?
    ensures r == "" <==> forall i :: 0 <= i < |e.phonetics.value| ==> e.phonetics.value[i].audio == ""
    ensures forall k :: FirstTruthyAt(Audios(e.phonetics.value), k) ==> r == e.phonetics.value[k].audio
  {
    FirstTruthy(Audios(e.phonetics.value))
  }

  predicate StartsWith(s: string, prefix: string) {
    |prefix| <= |s| && s[..|prefix|] == prefix
  }

  /** The URL handed to the audio player when a pronunciation button is
      clicked: kept when it starts with "http", otherwise "https:" is put in
      front of it (src/content/content.js:133, src/popup/popup.js:143). */
  function PlayableUrl(url: string): (r: string)
    ensures StartsWith(r, "http")
    ensures StartsWith(url, "http") ==> r == url
    ensures !StartsWith(url, "http") ==> StartsWith(r, "https:") && r[6..] == url
  {
    if StartsWith(url, "http") then url else "https:" + url
  }

  /** A scheme-relative URL ("//host/path") is fetched over https. */
  lemma SchemeRelativeGetsHttps(url: string)
    requires StartsWith(url, "//")
    ensures PlayableUrl(url) == "https:" + url
  {
    assert url[0] == '/';
  }

  /** Making a URL playable twice is the same as doing it once. */
  lemma PlayableUrlIdempotent(url: string)
    ensures PlayableUrl(PlayableUrl(url)) == PlayableUrl(url)
  {
  }
}
