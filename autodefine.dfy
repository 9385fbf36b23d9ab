/** The auto-define pipeline of the content script
    (src/content/content.js:37-206): a change detector that remembers the
    last selection and owns the single overlay. Each `Update` is one run of
    `updatePopover`, taken as one atomic step: the tile texts, the scroll
    position and the dictionary are its inputs. */
module AutoDefine {
  import opened Dictionary
  import opened Selection
  import opened Lookup
  import opened Overlay

  /** The stored settings; a missing `autoDefineEnabled` is false and a
      missing `popoverPosition` is "". */
  datatype Settings = Settings(autoDefineEnabled: bool, popoverPosition: string)

  /** The page holds no overlay, or exactly one. */
  datatype OverlayState = Absent | Shown(view: View)

  class AutoDefiner {
    /** Whether the observers were attached (line 44); when not, no update
        ever runs. */
    const observing: bool
    const position: string
    var lastWords: seq<string>
    var overlay: OverlayState
    /** Every overlay shown so far, oldest first, the loading ones included. */
    ghost var renders: seq<View>

    /** Between updates, a shown overlay is the populated one for the last
        selection: its header names `lastWords` and it has one card per word. */
    ghost predicate Valid()
      reads this
    {
      && (!observing ==> lastWords == [] && overlay == Absent)
      && (overlay.Shown? ==>
            && lastWords != []
            && overlay.view.header == HeaderText(lastWords)
            && overlay.view.body.Cards?
            && |overlay.view.body.cards| == |lastWords|
            && LabelsMatch(overlay.view))
    }

    /** The script starting on the page with the stored settings. */
    constructor (settings: Settings)
      ensures Valid()
      ensures observing == settings.autoDefineEnabled && position == settings.popoverPosition
      ensures lastWords == [] && overlay == Absent && renders == []
    {
      observing := settings.autoDefineEnabled;
      position := settings.popoverPosition;
      lastWords := [];
      overlay := Absent;
      renders := [];
    }

    /** `removePopover` (lines 56-59). */
    method RemovePopover()
      modifies this`overlay
      ensures overlay == Absent
    {
      overlay := Absent;
    }

    /** `showPopover` (lines 62-151): the old overlay goes, the new one is
        built and shown. */
    method ShowPopover(words: seq<string>, records: seq<Record>, tiles: seq<Tile>, scroll: Scroll)
      modifies this`overlay, this`renders
      ensures overlay == Shown(ViewFor(words, records, position, tiles, scroll))
      ensures renders == old(renders) + [ViewFor(words, records, position, tiles, scroll)]
    {
      RemovePopover();
      var v := BuildView(words, records, position, tiles, scroll);
      overlay := Shown(v);
      renders := renders + [v];
    }

    /** `updatePopover` (lines 183-196). An empty selection removes the
        overlay and forgets the last selection; an unchanged one does
        nothing; a changed one is recorded, a loading overlay with the one
        placeholder card is shown, the words are looked up in order and the
        overlay with their records replaces it. */
    method Update(tiles: seq<Tile>, scroll: Scroll, lookup: string -> Response)
      requires Valid()
      modifies this
      ensures Valid()
      ensures !observing ==> lastWords == old(lastWords) && overlay == old(overlay) && renders == old(renders)
      ensures observing && SelectedWords(tiles) == [] ==>
        lastWords == [] && overlay == Absent && renders == old(renders)
      ensures observing && SelectedWords(tiles) != [] && SelectedWords(tiles) == old(lastWords) ==>
        lastWords == old(lastWords) && overlay == old(overlay) && renders == old(renders)
      ensures observing && SelectedWords(tiles) != [] && SelectedWords(tiles) != old(lastWords) ==>
        var words := SelectedWords(tiles);
        var populated := ViewFor(words, Definitions(words, lookup), position, tiles, scroll);
        && lastWords == words
        && renders == old(renders) + [ViewFor(words, [Loading], position, tiles, scroll), populated]
        && overlay == Shown(populated)
    {
      if !observing {
        return;
      }
      var words := SelectedWords(tiles);
      if |words| == 0 {
        RemovePopover();
        lastWords := [];
        return;
      }
      if words == lastWords {
        return;
      }
      Refresh(words, tiles, scroll, lookup);
    }

    /** Lines 192-195, for a new non-empty selection. */
    method Refresh(words: seq<string>, tiles: seq<Tile>, scroll: Scroll, lookup: string -> Response)
      requires observing && words != []
      modifies this
      ensures Valid()
      ensures lastWords == words
      ensures renders == old(renders) + [ViewFor(words, [Loading], position, tiles, scroll),
                                         ViewFor(words, Definitions(words, lookup), position, tiles, scroll)]
      ensures overlay == Shown(ViewFor(words, Definitions(words, lookup), position, tiles, scroll))
    {
      lastWords := words;
      ShowPopover(words, [Loading], tiles, scroll);
      var defs := FetchDefinitions(words, lookup);
      ShowPopover(words, defs, tiles, scroll);
      FreshViewCollapsed(words, defs, position, tiles, scroll);
    }

    /** The close button (line 128): the overlay goes, the last selection
        stays, so the same selection does not bring it back. */
    method Close()
      requires Valid() && overlay.Shown?
      modifies this`overlay
      ensures Valid() && overlay == Absent
    {
      RemovePopover();
    }

    /** A click on the details button of card `idx` (lines 138-150). */
    method ToggleDetails(idx: nat)
      requires Valid() && overlay.Shown? && idx < |overlay.view.body.cards|
      modifies this`overlay
      ensures Valid()
      ensures overlay == Shown(ToggleCard(old(overlay).view, idx))
    {
      overlay := Shown(ToggleCard(overlay.view, idx));
    }

    /** Two updates on the same tiles do the work of one: the second changes
        nothing, so at most one lookup sequence (two renders) happens. */
    method UpdateTwice(tiles: seq<Tile>, scroll: Scroll, lookup: string -> Response)
      returns (ghost afterFirst: (seq<string>, OverlayState, seq<View>))
      requires Valid()
      modifies this
      ensures Valid()
      ensures (lastWords, overlay, renders) == afterFirst
      ensures |renders| <= |old(renders)| + 2
    {
      Update(tiles, scroll, lookup);
      afterFirst := (lastWords, overlay, renders);
      Update(tiles, scroll, lookup);
    }
  }

  /** With auto-define off the overlay never appears, whatever happens on
      the page. */
  method DisabledNeverShows(settings: Settings, tiles: seq<seq<Tile>>, scroll: Scroll, lookup: string -> Response)
    returns (definer: AutoDefiner)
    requires !settings.autoDefineEnabled
    ensures definer.overlay == Absent && definer.renders == []
  {
    definer := new AutoDefiner(settings);
    var i := 0;
    while i < |tiles|
      invariant 0 <= i <= |tiles|
      invariant definer.Valid() && !definer.observing
      invariant definer.overlay == Absent && definer.renders == []
    {
      definer.Update(tiles[i], scroll, lookup);
      i := i + 1;
    }
  }
}
