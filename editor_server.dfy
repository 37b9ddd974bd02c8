/** The editor's WebSocket server (editor/editor/WebSocketServer.swift):
    the view trees the runtimes send are kept as packets, one per distinct
    view hierarchy, with a table from root ids to packet indices. */
module EditorServer {
  import opened Wrappers
  import opened EditorTypes

  /** A client's `UUID`. */
  type ClientId = nat

  /** A client connection; `ready` is its state being `.ready`. */
  datatype Connection = Connection(ready: bool)

  /** `MessageTranslation`: the end of a drag, as offsets and the ids. */
  datatype Translation = Translation(translationX: real, translationY: real, actionableIds: set<string>)

  /** `MessageActionables`: a tree and the selection made in it. */
  datatype Actionables = Actionables(tree: STree, actionableIds: set<ActionableIdPair>)

  /** A received `MessageWrapper`, by type; a payload that does not decode
      as the type's message is `None`. */
  datatype Message =
    | ActionableMessage
    | ActionablesMessage(actionables: Option<Actionables>)
    | SchemaMessage
    | TranslationEndedMessage(translation: Option<Translation>)

  /** What the server sends, after encoding. */
  datatype Payload =
    | IsActionable(isActionable: bool)
    | SelectedIds(ids: set<ActionableIdPair>, tree: STree)
    | Schemas(wrappers: seq<AnimationWrapper>)

  datatype Outgoing = Outgoing(to: ClientId, payload: Payload)

  /** The contents of a packet. */
  datatype Packet = Packet(tree: STree, actionableIds: set<ActionableIdPair>)

  /** The packets and the lookup table from root ids to packet indices. */
  datatype Store = Store(packets: seq<Packet>, lut: map<string, int>)

  /** Every index the table holds names a packet. */
  predicate LutValid(s: Store)
  {
    forall k :: k in s.lut ==> 0 <= s.lut[k] < |s.packets|
  }

  /** The packet a message is stored as. */
  function PacketOf(m: Actionables): Packet
  {
    Packet(m.tree, m.actionableIds)
  }

  /** A packet's tree shares an id with the new tree's ids. */
  predicate Overlaps(p: Packet, newIds: set<string>)
  {
    !(TreeIds(p.tree) !! newIds)
  }

  /** `oldSet.first(where:)` for one packet: when the packet overlaps the
      new ids and the table knows some of its ids, one of those ids (the
      set's iteration order decides which); otherwise none. */
  ghost predicate FirstKnown(q: Packet, lut: map<string, int>, newIds: set<string>, c: Option<string>)
  {
    if Overlaps(q, newIds) && TreeIds(q.tree) * lut.Keys != {} then
      c.Some? && c.value in TreeIds(q.tree) && c.value in lut
    else
      c.None?
  }

  /** The slots the table gives for the chosen ids. */
  function WrittenSlots(lut: map<string, int>, chosen: seq<Option<string>>): set<int>
  {
    set j | 0 <= j < |chosen| && chosen[j].Some? && chosen[j].value in lut :: lut[chosen[j].value]
  }

  /** Choosing one more id adds its slot and nothing else. */
  lemma WrittenSlotsSnoc(lut: map<string, int>, chosen: seq<Option<string>>, c: Option<string>)
    ensures WrittenSlots(lut, chosen + [c]) ==
            WrittenSlots(lut, chosen) + (if c.Some? && c.value in lut then {lut[c.value]} else {})
  {
    var cs := chosen + [c];
    forall x | x in WrittenSlots(lut, chosen)
      ensures x in WrittenSlots(lut, cs)
    {
      var j :| 0 <= j < |chosen| && chosen[j].Some? && chosen[j].value in lut && lut[chosen[j].value] == x;
      assert cs[j] == chosen[j];
    }
    if c.Some? && c.value in lut {
      assert cs[|chosen|] == c;
    }
  }

  /** The merge loop over the packets as they were, given the id
      `first(where:)` chose for each packet (`chosen`): exactly the table
      slots of the chosen ids receive `p`, and every other slot keeps its
      packet. */
  ghost predicate Merged(packets: seq<Packet>, lut: map<string, int>, newIds: set<string>, p: Packet,
                         chosen: seq<Option<string>>, merged: seq<Packet>)
  {
    && |chosen| == |packets| && |merged| == |packets|
    && (forall j :: 0 <= j < |packets| ==> FirstKnown(packets[j], lut, newIds, chosen[j]))
    && (forall i :: 0 <= i < |merged| ==> merged[i] == if i in WrittenSlots(lut, chosen) then p else packets[i])
  }

  /** `updateTreePackets`, given the ids the merge loop chose: a tree
      without a root is ignored; the first tree becomes packet 0; a tree
      sharing no id with any packet is appended under its root id;
      otherwise nothing is appended and the merge loop runs. */
  ghost predicate Updated(s: Store, m: Actionables, chosen: seq<Option<string>>, s': Store)
  {
    var p := PacketOf(m);
    if m.tree.rootNode.None? then s' == s
    else
      var rootId := m.tree.rootNode.value.id;
      if s.packets == [] then s' == Store([p], s.lut[rootId := 0])
      else
        var newIds := TreeIds(m.tree);
        if exists j :: 0 <= j < |s.packets| && Overlaps(s.packets[j], newIds) then
          s'.lut == s.lut && Merged(s.packets, s.lut, newIds, p, chosen, s'.packets)
        else
          s' == Store(s.packets + [p], s.lut[rootId := |s.packets|])
  }

  /** An update keeps the table valid, never removes a packet and adds at
      most one. */
  lemma UpdatedKeepsTable(s: Store, m: Actionables, chosen: seq<Option<string>>, s': Store)
    requires LutValid(s) && Updated(s, m, chosen, s')
    ensures LutValid(s')
    ensures |s.packets| <= |s'.packets| <= |s.packets| + 1
  {
  }

  /** A tree with a root is recorded when every packet it overlaps has an
      id the table knows (the merge writes it into that id's slot), and
      when it overlaps none (it is appended). */
  lemma UpdatedRecordsWhenKnown(s: Store, m: Actionables, chosen: seq<Option<string>>, s': Store)
    requires LutValid(s) && Updated(s, m, chosen, s') && m.tree.rootNode.Some?
    requires forall j :: 0 <= j < |s.packets| && Overlaps(s.packets[j], TreeIds(m.tree)) ==>
               TreeIds(s.packets[j].tree) * s.lut.Keys != {}
    ensures PacketOf(m) in s'.packets
  {
    var newIds := TreeIds(m.tree);
    if s.packets == [] {
      assert s'.packets[0] == PacketOf(m);
    } else if exists j :: 0 <= j < |s.packets| && Overlaps(s.packets[j], newIds) {
      var j :| 0 <= j < |s.packets| && Overlaps(s.packets[j], newIds);
      assert FirstKnown(s.packets[j], s.lut, newIds, chosen[j]);
      var i := s.lut[chosen[j].value];
      assert i in WrittenSlots(s.lut, chosen);
      assert s'.packets[i] == PacketOf(m);
    } else {
      assert s'.packets[|s.packets|] == PacketOf(m);
    }
  }

  // ---------------------------------------------------------------------
  // A message the merge loses

  /** Root `a` with one child `b`, and the like. */
  function TwoNodeTree(treeId: string, a: string, b: string): STree
  {
    STree(treeId, map[], Some(SNode(a, None, Present([SNode(b, Some(a), Absent)]))))
  }

  lemma TwoNodeTreeIds(treeId: string, a: string, b: string)
    ensures TreeIds(TwoNodeTree(treeId, a, b)) == {a, b}
  {
    var n := TwoNodeTree(treeId, a, b).rootNode.value;
    var cs := n.children.nodes;
    assert PreOrder(cs[0]) == [b];
    var ss := seq(|cs|, i requires 0 <= i < |cs| => PreOrder(cs[i]));
    assert ss == [[b]];
    assert Flatten(ss) == [b];
    assert PreOrder(n) == [a, b];
  }

  const FirstMessage := Actionables(TwoNodeTree("t1", "A", "B"), {})
  const SecondMessage := Actionables(TwoNodeTree("t2", "C", "B"), {})
  const ThirdMessage := Actionables(TwoNodeTree("t3", "D", "C"), {})

  /** The table after the first two messages: the second tree shares `B`
      with the first, so it overwrote packet 0 through the first tree's
      root `A`, and the table still knows only `A`. */
  const AfterSecond := Store([PacketOf(SecondMessage)], map["A" := 0])

  lemma SecondOverwritesFirst()
    ensures Updated(Store([], map[]), FirstMessage, [], Store([PacketOf(FirstMessage)], map["A" := 0]))
    ensures Updated(Store([PacketOf(FirstMessage)], map["A" := 0]), SecondMessage, [Some("A")], AfterSecond)
  {
    TwoNodeTreeIds("t1", "A", "B");
    TwoNodeTreeIds("t2", "C", "B");
    var packets := [PacketOf(FirstMessage)];
    var lut := map["A" := 0];
    var newIds := TreeIds(SecondMessage.tree);
    assert "B" in TreeIds(packets[0].tree) && "B" in newIds;
    assert Overlaps(packets[0], newIds);
    assert "A" in TreeIds(packets[0].tree) * lut.Keys;
    assert FirstKnown(packets[0], lut, newIds, Some("A"));
    assert WrittenSlots(lut, [Some("A")]) == {0} by {
      assert [Some("A")][0] == Some("A");
    }
  }

  /** The third tree shares `C` with packet 0, so nothing is appended, but
      none of packet 0's ids `C`, `B` is in the table, so nothing is
      overwritten either: the third message is lost, whatever the loop
      chose. */
  lemma ThirdMessageLost(chosen: seq<Option<string>>, s': Store)
    requires Updated(AfterSecond, ThirdMessage, chosen, s')
    ensures s' == AfterSecond
    ensures PacketOf(ThirdMessage) !in s'.packets
  {
    TwoNodeTreeIds("t2", "C", "B");
    TwoNodeTreeIds("t3", "D", "C");
    var packets := AfterSecond.packets;
    var lut := AfterSecond.lut;
    var newIds := TreeIds(ThirdMessage.tree);
    assert "C" in TreeIds(packets[0].tree) && "C" in newIds;
    assert Overlaps(packets[0], newIds);
    assert TreeIds(packets[0].tree) * lut.Keys == {};
    assert chosen[0].None?;
    assert WrittenSlots(lut, chosen) == {};
    assert s'.packets[0] == packets[0];
    assert s'.packets == packets;
    assert PacketOf(ThirdMessage) != packets[0] by {
      assert ThirdMessage.tree.id != SecondMessage.tree.id;
    }
  }

  /** The evidently intended merge: every overlapping packet is replaced
      at its own index. */
  function UpdatedByIndex(s: Store, m: Actionables): (r: Store)
    ensures m.tree.rootNode.None? ==> r == s
  {
    var p := PacketOf(m);
    if m.tree.rootNode.None? then s
    else
      var rootId := m.tree.rootNode.value.id;
      if s.packets == [] then Store([p], s.lut[rootId := 0])
      else
        var newIds := TreeIds(m.tree);
        if exists j :: 0 <= j < |s.packets| && Overlaps(s.packets[j], newIds) then
          Store(seq(|s.packets|, j requires 0 <= j < |s.packets| =>
                  if Overlaps(s.packets[j], newIds) then p else s.packets[j]), s.lut)
        else
          Store(s.packets + [p], s.lut[rootId := |s.packets|])
  }

  /** With the intended merge every tree with a root is recorded, the
      table stays valid and at most one packet is added. */
  lemma UpdatedByIndexRecords(s: Store, m: Actionables)
    requires LutValid(s) && m.tree.rootNode.Some?
    ensures PacketOf(m) in UpdatedByIndex(s, m).packets
    ensures LutValid(UpdatedByIndex(s, m))
    ensures |s.packets| <= |UpdatedByIndex(s, m).packets| <= |s.packets| + 1
  {
    var r := UpdatedByIndex(s, m);
    var newIds := TreeIds(m.tree);
    if s.packets != [] && exists j :: 0 <= j < |s.packets| && Overlaps(s.packets[j], newIds) {
      var j :| 0 <= j < |s.packets| && Overlaps(s.packets[j], newIds);
      assert r.packets[j] == PacketOf(m);
    } else {
      assert r.packets[|r.packets| - 1] == PacketOf(m);
    }
  }

  /** `retrieveAllIds(treeItem:)`: the pre-order ids of a subtree. */
  method RetrieveAllIds(n: SNode) returns (ids: seq<string>)
    ensures ids == PreOrder(n)
    decreases n
  {
    ids := [n.id];
    match n.children
    case Absent =>
    case Present(cs) =>
      ghost var ss := seq(|cs|, i requires 0 <= i < |cs| => PreOrder(cs[i]));
      for i := 0 to |cs|
        invariant ids == [n.id] + Flatten(ss[..i])
      {
        var sub := RetrieveAllIds(cs[i]);
        assert ss[..i + 1][..i] == ss[..i];
        ids := ids + sub;
      }
      assert ss[..|cs|] == ss;
  }

  /** `retrieveAllIds(tree:)`: nil without a root. */
  method RetrieveTreeIds(t: STree) returns (ids: Option<seq<string>>)
    ensures ids.None? <==> t.rootNode.None?
    ensures ids.Some? ==> ids.value == PreOrder(t.rootNode.value) && ids.value[0] == t.rootNode.value.id
  {
    if t.rootNode.None? {
      return None;
    }
    var all := RetrieveAllIds(t.rootNode.value);
    ids := Some(all);
  }

  /** What the merge loop has done after visiting the first `j` packets:
      it chose an id for each of them as `first(where:)` does, exactly the
      slots of the chosen ids hold the new packet, and `found` tells
      whether one of them overlapped (`firstOver` being one that did). */
  ghost predicate MergeInv(snapshot: seq<Packet>, cur: seq<Packet>, packet: Packet, lut: map<string, int>,
                           newIds: set<string>, chosen: seq<Option<string>>, j: int, found: bool, firstOver: int)
  {
    && 0 <= j <= |snapshot| && |chosen| == j && |cur| == |snapshot|
    && (forall j' :: 0 <= j' < j ==> FirstKnown(snapshot[j'], lut, newIds, chosen[j']))
    && (forall i :: 0 <= i < |cur| ==> cur[i] == if i in WrittenSlots(lut, chosen) then packet else snapshot[i])
    && (found ==> 0 <= firstOver < j && Overlaps(snapshot[firstOver], newIds))
    && (!found ==> forall j' :: 0 <= j' < j ==> !Overlaps(snapshot[j'], newIds))
  }

  lemma MergeInvStep(snapshot: seq<Packet>, cur: seq<Packet>, packet: Packet, lut: map<string, int>,
                     newIds: set<string>, chosen: seq<Option<string>>, j: int, found: bool, firstOver: int,
                     overlaps: bool, c: Option<string>)
    requires MergeInv(snapshot, cur, packet, lut, newIds, chosen, j, found, firstOver) && j < |snapshot|
    requires forall k :: k in lut ==> 0 <= lut[k] < |snapshot|
    requires overlaps == Overlaps(snapshot[j], newIds) && FirstKnown(snapshot[j], lut, newIds, c)
    ensures MergeInv(snapshot, if c.Some? then cur[lut[c.value] := packet] else cur, packet, lut, newIds,
                     chosen + [c], j + 1, found || overlaps, if overlaps then j else firstOver)
  {
    WrittenSlotsSnoc(lut, chosen, c);
    var chosen' := chosen + [c];
    forall j' | 0 <= j' <= j
      ensures FirstKnown(snapshot[j'], lut, newIds, chosen'[j'])
    {
      if j' < j {
        assert chosen'[j'] == chosen[j'];
      }
    }
    var cur' := if c.Some? then cur[lut[c.value] := packet] else cur;
    forall i | 0 <= i < |cur'|
      ensures cur'[i] == if i in WrittenSlots(lut, chosen') then packet else snapshot[i]
    {
      if c.Some? && i == lut[c.value] {
        assert i in WrittenSlots(lut, chosen');
      } else {
        assert cur'[i] == cur[i];
      }
    }
  }

  lemma MergeInvDone(snapshot: seq<Packet>, cur: seq<Packet>, packet: Packet, lut: map<string, int>,
                     newIds: set<string>, chosen: seq<Option<string>>, found: bool, firstOver: int)
    requires MergeInv(snapshot, cur, packet, lut, newIds, chosen, |snapshot|, found, firstOver)
    ensures Merged(snapshot, lut, newIds, packet, chosen, cur)
    ensures found <==> exists j :: 0 <= j < |snapshot| && Overlaps(snapshot[j], newIds)
  {
  }

  /** `Set(retrieveAllIds(tree:))`: the ids of a tree with a root. */
  method TreeIdSet(t: STree) returns (ids: Option<set<string>>)
    ensures ids.None? <==> t.rootNode.None?
    ensures ids.Some? ==> ids.value == TreeIds(t)
  {
    var all := RetrieveTreeIds(t);
    if all.None? {
      return None;
    }
    ids := Some(set x | x in all.value);
  }

  /** Swift's `UInt16`, the type of the port a server listens on. */
  newtype UInt16 = x: int | 0 <= x < 0x1_0000

  class Server {
    /** The port the listener was created on. */
    const port: UInt16
    var clients: map<ClientId, Connection>
    var treePackets: seq<Packet>
    var treePacketsLUT: map<string, int>
    /** The messages handed to the `translation` callback, in order. */
    var translations: seq<Translation>
    /** The messages sent, in order. */
    var outbox: seq<Outgoing>
    /** The connections `reset` cancelled. */
    var cancelled: set<ClientId>

    function Snapshot(): Store
      reads this
    {
      Store(treePackets, treePacketsLUT)
    }

    predicate Valid()
      reads this
    {
      forall k :: k in treePacketsLUT ==> 0 <= treePacketsLUT[k] < |treePackets|
    }

    constructor (port: UInt16)
      ensures Valid() && this.port == port
      ensures clients == map[] && treePackets == [] && treePacketsLUT == map[]
      ensures translations == [] && outbox == [] && cancelled == {}
    {
      this.port := port;
      clients := map[];
      treePackets := [];
      treePacketsLUT := map[];
      translations := [];
      outbox := [];
      cancelled := {};
    }

    /** `reset`: every connection is cancelled and none is kept. */
    method Reset()
      modifies this
      ensures clients == map[] && cancelled == old(cancelled) + old(clients).Keys
      ensures treePackets == old(treePackets) && treePacketsLUT == old(treePacketsLUT)
      ensures translations == old(translations) && outbox == old(outbox)
    {
      cancelled := cancelled + clients.Keys;
      clients := map[];
    }

    /** `send`: queued only for a connected client. */
    method Send(payload: Payload, to: ClientId)
      modifies this`outbox
      ensures outbox == old(outbox) + (if to in clients then [Outgoing(to, payload)] else [])
    {
      if to in clients {
        outbox := outbox + [Outgoing(to, payload)];
      }
    }

    /** `updateTreePackets`, with the id `first(where:)` chose for each
        packet the merge loop visited. */
    method UpdateTreePackets(msg: Actionables) returns (ghost chosen: seq<Option<string>>)
      requires Valid()
      modifies this`treePackets, this`treePacketsLUT
      ensures Valid()
      ensures Updated(old(Snapshot()), msg, chosen, Snapshot())
    {
      chosen := [];
      if msg.tree.rootNode.None? {
        return;
      }
      var rootId := msg.tree.rootNode.value.id;
      var packet := PacketOf(msg);
      if treePackets == [] {
        treePackets := treePackets + [packet];
        treePacketsLUT := treePacketsLUT[rootId := |treePackets| - 1];
        return;
      }
      var newTreeIds := TreeIdSet(msg.tree);
      var newSet := newTreeIds.value;
      ghost var before := treePackets;
      var foundOldSet;
      foundOldSet, chosen := MergeLoop(packet, newSet);
      if !foundOldSet {
        assert WrittenSlots(treePacketsLUT, chosen) == {} by {
          forall j | 0 <= j < |chosen|
            ensures chosen[j].None?
          {
            assert FirstKnown(before[j], treePacketsLUT, newSet, chosen[j]);
          }
        }
        assert treePackets == before;
        treePackets := treePackets + [packet];
        treePacketsLUT := treePacketsLUT[rootId := |treePackets| - 1];
      }
    }

    /** The loop of `updateTreePackets`, over the packets as they were when
        it started; `chosen` records the id `first(where:)` picked for each
        packet. */
    method MergeLoop(packet: Packet, newSet: set<string>)
      returns (foundOldSet: bool, ghost chosen: seq<Option<string>>)
      requires Valid()
      modifies this`treePackets
      ensures Valid() && treePacketsLUT == old(treePacketsLUT)
      ensures Merged(old(treePackets), treePacketsLUT, newSet, packet, chosen, treePackets)
      ensures foundOldSet <==> exists j :: 0 <= j < |old(treePackets)| && Overlaps(old(treePackets)[j], newSet)
    {
      var snapshot := treePackets;
      var lut := treePacketsLUT;
      chosen := [];
      foundOldSet := false;
      ghost var firstOver := 0;
      for j := 0 to |snapshot|
        invariant treePacketsLUT == lut && Valid()
        invariant MergeInv(snapshot, treePackets, packet, lut, newSet, chosen, j, foundOldSet, firstOver)
      {
        var overlaps;
        ghost var c;
        ghost var before := treePackets;
        overlaps, c := MergeStep(packet, newSet, snapshot[j]);
        MergeInvStep(snapshot, before, packet, lut, newSet, chosen, j, foundOldSet, firstOver, overlaps, c);
        if overlaps {
          foundOldSet := true;
          firstOver := j;
        }
        chosen := chosen + [c];
      }
      MergeInvDone(snapshot, treePackets, packet, lut, newSet, chosen, foundOldSet, firstOver);
    }

    /** One turn of the loop: when the packet `q` overlaps and the table
        knows one of its ids, the id `first(where:)` picks (`chosen`) has
        its slot overwritten by `packet`; nothing else changes. */
    method MergeStep(packet: Packet, newSet: set<string>, q: Packet)
      returns (overlaps: bool, ghost chosen: Option<string>)
      requires Valid()
      modifies this`treePackets
      ensures |treePackets| == |old(treePackets)| && Valid()
      ensures overlaps == Overlaps(q, newSet) && FirstKnown(q, treePacketsLUT, newSet, chosen)
      ensures treePackets == if chosen.Some? then old(treePackets)[treePacketsLUT[chosen.value] := packet]
                             else old(treePackets)
    {
      chosen := None;
      var oldTreeIds := TreeIdSet(q.tree);
      if oldTreeIds.None? {
        return false, None;
      }
      var oldSet := oldTreeIds.value;
      overlaps := !(oldSet !! newSet);
      if overlaps {
        if exists k :: k in oldSet && k in treePacketsLUT {
          var lookupId :| lookupId in oldSet && lookupId in treePacketsLUT;
          var offset := treePacketsLUT[lookupId];
          assert lookupId in oldSet * treePacketsLUT.Keys;
          treePackets := treePackets[offset := packet];
          chosen := Some(lookupId);
        } else {
          assert oldSet * treePacketsLUT.Keys == {};
        }
      }
    }

    /** The intended `updateTreePackets`, replacing overlapping packets at
        their own index. */
    method UpdateTreePacketsByIndex(msg: Actionables)
      requires Valid()
      modifies this`treePackets, this`treePacketsLUT
      ensures Valid()
      ensures Snapshot() == UpdatedByIndex(old(Snapshot()), msg)
    {
      if msg.tree.rootNode.None? {
        return;
      }
      var rootId := msg.tree.rootNode.value.id;
      var packet := PacketOf(msg);
      if treePackets == [] {
        treePackets := [packet];
        treePacketsLUT := treePacketsLUT[rootId := 0];
        return;
      }
      var newTreeIds := TreeIdSet(msg.tree);
      var newSet := newTreeIds.value;
      ghost var before := treePackets;
      var foundOldSet := false;
      for j := 0 to |treePackets|
        invariant |treePackets| == |before| && treePacketsLUT == old(treePacketsLUT)
        invariant forall i :: 0 <= i < j ==> treePackets[i] == if Overlaps(before[i], newSet) then packet else before[i]
        invariant forall i :: j <= i < |before| ==> treePackets[i] == before[i]
        invariant foundOldSet <==> exists i :: 0 <= i < j && Overlaps(before[i], newSet)
      {
        var oldTreeIds := TreeIdSet(treePackets[j].tree);
        if oldTreeIds.Some? {
          var oldSet := oldTreeIds.value;
          if !(oldSet !! newSet) {
            foundOldSet := true;
            treePackets := treePackets[j := packet];
          }
        }
      }
      if !foundOldSet {
        treePackets := treePackets + [packet];
        treePacketsLUT := treePacketsLUT[rootId := |treePackets| - 1];
      }
    }

    /** `handleMessage`: `actionable` and `schema` messages are ignored,
        `actionables` update the packets (`chosen` being the ids the
        merge loop picked) and `translationEnded` goes to the callback. A
        payload that does not decode traps (`try!`). */
    method HandleMessage(m: Message) returns (trapped: bool, ghost chosen: seq<Option<string>>)
      requires Valid()
      modifies this`treePackets, this`treePacketsLUT, this`translations
      ensures Valid()
      ensures trapped <==> (m.ActionablesMessage? && m.actionables.None?) ||
                           (m.TranslationEndedMessage? && m.translation.None?)
      ensures m.ActionablesMessage? && m.actionables.Some? ==>
                Updated(old(Snapshot()), m.actionables.value, chosen, Snapshot()) && translations == old(translations)
      ensures m.TranslationEndedMessage? && m.translation.Some? ==>
                translations == old(translations) + [m.translation.value] &&
                treePackets == old(treePackets) && treePacketsLUT == old(treePacketsLUT)
      ensures trapped || m.ActionableMessage? || m.SchemaMessage? ==>
                treePackets == old(treePackets) && treePacketsLUT == old(treePacketsLUT) && translations == old(translations)
    {
      chosen := [];
      match m
      case ActionableMessage =>
        return false, chosen;
      case ActionablesMessage(msg) =>
        if msg.None? {
          return true, chosen;
        }
        chosen := UpdateTreePackets(msg.value);
        return false, chosen;
      case SchemaMessage =>
        return false, chosen;
      case TranslationEndedMessage(msg) =>
        if msg.None? {
          return true, chosen;
        }
        translations := translations + [msg.value];
        return false, chosen;
    }
  }
}
