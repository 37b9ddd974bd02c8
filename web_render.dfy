/** The editor's web view wrapper (editor/editor/WebRenderView.swift): the
    message-bus handler that mirrors the page's selection into the
    editor, and the reload guard of `updateNSView`. */
module WebRender {
  import opened Wrappers

  const BusHandlerName := "inertiaMessageBusHandler"
  const ConsoleHandlerName := "consoleHandler"

  /** A decoded `InertiaMessageBusBody`. */
  datatype BusBody = BusBody(id: string, isSelected: bool)

  /** A script message: its handler name and its body, `None` when the body
      does not serialise or decode as a bus body. */
  datatype ScriptMessage = ScriptMessage(name: string, body: Option<BusBody>)

  /** The selection after a bus message: the id is in it exactly when the
      message says it is selected. */
  function Synced(ids: set<string>, m: BusBody): (r: set<string>)
    ensures m.id in r <==> m.isSelected
    ensures forall x :: x != m.id ==> (x in r <==> x in ids)
  {
    var contains := m.id in ids;
    if m.isSelected && !contains then ids + {m.id}
    else if !m.isSelected && contains then ids - {m.id}
    else ids
  }

  /** Applying the same message twice is applying it once. */
  lemma SyncedIdempotent(ids: set<string>, m: BusBody)
    ensures Synced(Synced(ids, m), m) == Synced(ids, m)
  {
  }

  /** The last message about an id decides it, whatever came before. */
  lemma SyncedLastWins(ids: set<string>, first: BusBody, second: BusBody)
    requires first.id == second.id
    ensures Synced(Synced(ids, first), second) == Synced(ids, second)
  {
  }

  class SelectedActionableIDTracker {
    var selectedActionableIds: set<string>

    constructor ()
      ensures selectedActionableIds == {}
    {
      selectedActionableIds := {};
    }
  }

  /** The navigation state of `updateNSView`: the url last recorded and
      the loads requested so far. */
  datatype Navigation = Navigation(currentURL: Option<string>, loads: seq<string>)

  /** `updateNSView`: a url other than the recorded one is loaded and
      recorded; the recorded one changes nothing. */
  function Updated(n: Navigation, url: string): (r: Navigation)
    ensures r.currentURL == Some(url)
    ensures Some(url) != n.currentURL ==> r.loads == n.loads + [url]
    ensures Some(url) == n.currentURL ==> r == n
  {
    if Some(url) != n.currentURL then Navigation(Some(url), n.loads + [url]) else n
  }

  /** A second update with the same url does nothing. */
  lemma UpdatedTwice(n: Navigation, url: string)
    ensures Updated(Updated(n, url), url) == Updated(n, url)
  {
  }

  class Coordinator {
    const selectedActionableIDTracker: SelectedActionableIDTracker
    var currentURL: Option<string>
    /** The requests handed to the web view, in order. */
    var loads: seq<string>

    function State(): Navigation
      reads this
    {
      Navigation(currentURL, loads)
    }

    constructor (tracker: SelectedActionableIDTracker)
      ensures selectedActionableIDTracker == tracker && State() == Navigation(None, [])
    {
      selectedActionableIDTracker := tracker;
      currentURL := None;
      loads := [];
    }

    /** `userContentController(_:didReceive:)`: a decoded bus message syncs
        the selection; console messages and undecodable bodies leave it. */
    method UserContentController(message: ScriptMessage)
      modifies selectedActionableIDTracker
      ensures message.name == BusHandlerName && message.body.Some? ==>
        selectedActionableIDTracker.selectedActionableIds ==
          Synced(old(selectedActionableIDTracker.selectedActionableIds), message.body.value)
      ensures !(message.name == BusHandlerName && message.body.Some?) ==>
        selectedActionableIDTracker.selectedActionableIds == old(selectedActionableIDTracker.selectedActionableIds)
    {
      if message.name == ConsoleHandlerName {
        return;
      }
      if message.name != BusHandlerName {
        return;
      }
      if message.body.None? {
        return;
      }
      var busMessage := message.body.value;
      var contains := busMessage.id in selectedActionableIDTracker.selectedActionableIds;
      if busMessage.isSelected && !contains {
        selectedActionableIDTracker.selectedActionableIds := selectedActionableIDTracker.selectedActionableIds + {busMessage.id};
      } else if !busMessage.isSelected && contains {
        selectedActionableIDTracker.selectedActionableIds := selectedActionableIDTracker.selectedActionableIds - {busMessage.id};
      }
    }

    /** `updateNSView` with the wrapper's url. */
    method UpdateNSView(url: string)
      modifies this`currentURL, this`loads
      ensures State() == Updated(old(State()), url)
    {
      if Some(url) != currentURL {
        loads := loads + [url];
        currentURL := Some(url);
      }
    }
  }
}
