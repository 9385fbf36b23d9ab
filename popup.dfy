/** The toolbar popup (src/popup/popup.js): it checks that the active tab is
    the game page, asks the page for the selected words, and lists one
    result item per word. The tab query, the message round trip and the
    dictionary are inputs; the three page elements it drives (loading
    indicator, results list, error line) are the fields of `PopupPage`. */
module Popup {
  import opened Dictionary
  import opened Details

  // ---- Page gating (lines 29-60) ----

  /** A tab; a missing url is "". */
  datatype Tab = Tab(url: string)

  /** What `browser.tabs.query` settled with. */
  datatype TabQuery = QueryFailed | Tabs(tabs: seq<Tab>)

  /** What sending the message to the page settled with. `words` is None
      when the response or its `words` field is missing. */
  datatype Reply = SendFailed | Answered(lastError: bool, words: Option<seq<string>>)

  datatype Outcome = Error(message: string) | Define(words: seq<string>)

  const GamePath := "nytimes.com/games/connections"
  const NoActiveTab := "Could not get the active tab."
  const NotGamePage := "This extension only works on the NYT Connections game page."
  const NoConnection := "Could not connect to the page. Please reload the game page and try again."
  const NoContentScript := "Could not communicate with the content script. Is the game page open?"
  const NoWordsSelected := "No words selected. Please select one to four words in the game."

  predicate OccursAt(s: string, p: string, i: int) {
    0 <= i && i + |p| <= |s| && s[i..i + |p|] == p
  }

  /** `s.includes(p)`. */
  predicate Contains(s: string, p: string)
    decreases |s|
  {
    if |p| > |s| then false
    else if s[..|p|] == p then true
    else Contains(s[1..], p)
  }

  lemma {:induction false} ContainsIff(s: string, p: string)
    ensures Contains(s, p) <==> exists i :: OccursAt(s, p, i)
    decreases |s|
  {
    if |p| > |s| {
    } else if s[..|p|] == p {
      assert OccursAt(s, p, 0);
    } else {
      ContainsIff(s[1..], p);
      if i :| OccursAt(s[1..], p, i) {
        assert s[1..][i..i + |p|] == s[i + 1..i + 1 + |p|];
        assert OccursAt(s, p, i + 1);
      }
      if i :| OccursAt(s, p, i) {
        assert i != 0;
        assert s[i..i + |p|] == s[1..][i - 1..i - 1 + |p|];
        assert OccursAt(s[1..], p, i - 1);
      }
    }
  }

  /** The message to the page is sent only from a tab whose url contains
      the game path. */
  predicate MessageSent(q: TabQuery) {
    q.Tabs? && |q.tabs| > 0 && Contains(q.tabs[0].url, GamePath)
  }

  /** What the popup ends up doing. A query with no tab makes
      `activeTab.url` throw, which the outer catch turns into the
      active-tab error. */
  function Dispatch(q: TabQuery, reply: Reply): (o: Outcome)
    ensures o.Define? <==>
      MessageSent(q) && reply.Answered? && !reply.lastError && reply.words.Some? && |reply.words.value| > 0
    ensures o.Define? ==> o.words == reply.words.value
    ensures (q.QueryFailed? || (q.Tabs? && |q.tabs| == 0)) ==> o == Error(NoActiveTab)
    ensures q.Tabs? && |q.tabs| > 0 && !MessageSent(q) ==> o == Error(NotGamePage)
    ensures MessageSent(q) && reply.SendFailed? ==> o == Error(NoContentScript)
    ensures MessageSent(q) && reply.Answered? && reply.lastError ==> o == Error(NoConnection)
    ensures MessageSent(q) && reply.Answered? && !reply.lastError && (reply.words.None? || reply.words.value == [])
      ==> o == Error(NoWordsSelected)
  {
    match q
    case QueryFailed => Error(NoActiveTab)
    case Tabs(tabs) =>
      if |tabs| == 0 then Error(NoActiveTab)
      else if !Contains(tabs[0].url, GamePath) then Error(NotGamePage)
      else
        match reply
        case SendFailed => Error(NoContentScript)
        case Answered(lastError, words) =>
          if lastError then Error(NoConnection)
          else if words.Some? && |words.value| > 0 then Define(words.value)
          else Error(NoWordsSelected)
  }

  /** Off the game page the page is never asked, so its reply, whatever it
      would have been, makes no difference. */
  lemma OffGamePageIgnoresReply(q: TabQuery, r1: Reply, r2: Reply)
    requires !MessageSent(q)
    ensures Dispatch(q, r1) == Dispatch(q, r2)
    ensures Dispatch(q, r1).Error?
  {
  }

  /** A tab on the game page (any url with the game path in it) gets its
      words looked up when the page answers with some. */
  lemma GamePageLooksUp(url: string, k: nat, words: seq<string>)
    requires k + |GamePath| <= |url| && url[k..k + |GamePath|] == GamePath
    requires words != []
    ensures Dispatch(Tabs([Tab(url)]), Answered(false, Some(words))) == Define(words)
  {
    ContainsIff(url, GamePath);
    assert OccursAt(url, GamePath, k);
  }

  // ---- Result items (lines 66-148) ----

  /** A rendered definition: word, pronunciation line, all meanings, origin
      block when the origin is truthy. */
  datatype DisplayItem = DisplayItem(
    word: string,
    pronunciation: Option<Pronunciation>,
    definition: seq<Line>,
    origin: Option<string>)

  /** The message of a caught error: a known text, or the message of the
      TypeError the script engine raises when the entry cannot be read,
      whose wording is the engine's. */
  datatype ErrorMessage = Text(text: string) | EngineTypeError

  datatype ResultItem = Found(item: DisplayItem) | Failed(word: string, message: ErrorMessage)

  function NotFoundText(word: string): string {
    "Definition not found for \"" + word + "\"."
  }

  /** What `displayDefinition(data)` appends for a readable entry. */
  function ItemOf(e: Entry): (d: DisplayItem)
    requires e.phonetics.Some?
    ensures d.word == e.word
    ensures d.pronunciation == PronunciationOf(PhoneticOf(e), AudioOf(e))
    ensures d.origin.Some? <==> e.origin != ""
    ensures d.origin.Some? ==> d.origin.value == e.origin
    ensures d.definition == DetailLines(e.meanings)
    ensures Regroup(d.definition) == e.meanings
  {
    RegroupDetailLines(e.meanings);
    DisplayItem(e.word, PronunciationOf(PhoneticOf(e), AudioOf(e)), DetailLines(e.meanings),
      if e.origin != "" then Some(e.origin) else None)
  }

  /** The item one word's lookup appends. */
  function ResultFor(word: string, resp: Response): (r: ResultItem)
    ensures r.Failed? <==> !Readable(resp)
    ensures r.Failed? ==> r.word == word
    ensures resp.NotOk? ==> r.message == Text(NotFoundText(word))
    ensures resp.Threw? ==> r.message == Text(resp.message)
    ensures resp.Json? && !Readable(resp) ==> r.message == EngineTypeError
    ensures r.Found? ==> r.item == ItemOf(FirstEntry(resp))
  {
    match resp
    case NotOk => Failed(word, Text(NotFoundText(word)))
    case Threw(message) => Failed(word, Text(message))
    case Json(_) => if Readable(resp) then Found(ItemOf(FirstEntry(resp))) else Failed(word, EngineTypeError)
  }

  function Results(words: seq<string>, lookup: string -> Response): (rs: seq<ResultItem>)
    ensures |rs| == |words|
    ensures forall i :: 0 <= i < |words| ==> rs[i] == ResultFor(words[i], lookup(words[i]))
  {
    if words == [] then [] else [ResultFor(words[0], lookup(words[0]))] + Results(words[1..], lookup)
  }

  /** The URL a click on a result item's audio button plays; the button is
      there only when the item has both a phonetic text and an audio URL. */
  function AudioToPlay(d: DisplayItem): (u: Option<string>)
    ensures u.Some? <==> d.pronunciation.Some? && d.pronunciation.value.audioButton.Some?
    ensures u.Some? ==> u.value == PlayableUrl(d.pronunciation.value.audioButton.value)
    ensures u.Some? ==> StartsWith(u.value, "http")
  {
    if d.pronunciation.Some? && d.pronunciation.value.audioButton.Some?
    then Some(PlayableUrl(d.pronunciation.value.audioButton.value))
    else None
  }

  /** A result item's audio button plays the audio URL of its entry, made
      playable; there is a button iff the entry has both a phonetic text and
      an audio URL. */
  lemma ItemPlaysEntryAudio(e: Entry)
    requires e.phonetics.Some?
    ensures AudioToPlay(ItemOf(e)) ==
      if PhoneticOf(e) != "" && AudioOf(e) != "" then Some(PlayableUrl(AudioOf(e))) else None
  {
  }

  class PopupPage {
    var loadingHidden: bool
    var results: seq<ResultItem>
    var errorText: string
    var errorHidden: bool

    /** `showError` (lines 21-26). */
    method ShowError(message: string)
      modifies this
      ensures loadingHidden && results == [] && errorText == message && !errorHidden
    {
      loadingHidden := true;
      results := [];
      errorText := message;
      errorHidden := false;
    }

    /** `displayDefinition` (lines 97-148), reached only once reading the
        entry cannot throw. */
    method DisplayDefinition(data: Entry)
      requires data.phonetics.Some?
      modifies this`results
      ensures results == old(results) + [Found(ItemOf(data))]
    {
      var word := data.word;
      var phonetic := PhoneticOf(data);
      var audio := AudioOf(data);
      var meaningsLines := RenderMeanings(data.meanings);
      var origin := if data.origin != "" then Some(data.origin) else None;
      results := results + [Found(DisplayItem(word, PronunciationOf(phonetic, audio), meaningsLines, origin))];
    }

    /** `fetchDefinitions` (lines 66-91): loading shown, results cleared,
        error hidden; one item per word in input order; loading hidden. The
        error text itself is left as it was. */
    method FetchDefinitions(words: seq<string>, lookup: string -> Response)
      modifies this
      ensures results == Results(words, lookup)
      ensures loadingHidden && errorHidden && errorText == old(errorText)
    {
      loadingHidden := false;
      results := [];
      errorHidden := true;
      var i := 0;
      while i < |words|
        invariant 0 <= i <= |words|
        invariant !loadingHidden && errorHidden && errorText == old(errorText)
        invariant |results| == i
        invariant forall k :: 0 <= k < i ==> results[k] == ResultFor(words[k], lookup(words[k]))
      {
        var word := words[i];
        var response := lookup(word);
        match response {
          case NotOk =>
            results := results + [Failed(word, Text(NotFoundText(word)))];
          case Threw(message) =>
            results := results + [Failed(word, Text(message))];
          case Json(data) =>
            if Readable(response) {
              DisplayDefinition(data[0]);
            } else {
              results := results + [Failed(word, EngineTypeError)];
            }
        }
        i := i + 1;
      }
      loadingHidden := true;
    }

    /** The DOMContentLoaded handler (lines 29-60): gate on the tab and the
        page's reply, then show an error or look the words up. */
    method Open(q: TabQuery, reply: Reply, lookup: string -> Response)
      modifies this
      ensures Dispatch(q, reply).Error? ==>
        loadingHidden && results == [] && errorText == Dispatch(q, reply).message && !errorHidden
      ensures Dispatch(q, reply).Define? ==>
        results == Results(Dispatch(q, reply).words, lookup) && loadingHidden && errorHidden &&
        errorText == old(errorText)
    {
      if q.QueryFailed? || |q.tabs| == 0 {
        ShowError(NoActiveTab);
        return;
      }
      var activeTab := q.tabs[0];
      if activeTab.url != "" && Contains(activeTab.url, GamePath) {
        match reply {
          case SendFailed =>
            ShowError(NoContentScript);
          case Answered(lastError, words) =>
            if lastError {
              ShowError(NoConnection);
            } else if words.Some? && |words.value| > 0 {
              FetchDefinitions(words.value, lookup);
            } else {
              ShowError(NoWordsSelected);
            }
        }
      } else {
        ShowError(NotGamePage);
      }
    }
  }
}
