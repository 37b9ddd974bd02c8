# Inertia / Vibe animation editor — a Dafny model of its core

Inertia (with its older sibling Vibe) is a system for authoring animations
of live user-interface views. Each runtime wraps the views of an app:
- the SwiftUI runtime (`Inertia`, `Vibe`);
- the React runtimes (`inertia-react`, `vibe-react`, `vibe-base`);
- the Jetpack Compose runtime in the Android demo.

A wrapped view registers itself in a hierarchy tree under a generated
hierarchy id. The runtime reports the tree to a macOS editor over a
WebSocket, and the editor shows the tree, lets the user select
"actionable" views and key-frame animations, and sends schemas back. The
runtimes route those schemas to the right container and draw the top layer
of shapes on a Metal canvas. The editor also runs a preprocessor over Swift
sources, sizes the Linux virtual machine it uses, and drives a set-up wizard.

This project models that core, one Dafny module per source file (plus a few
shared modules):
- values become datatypes and functions;
- objects whose fields the source updates become classes whose methods are
  specified against a state function (`State()`) and a pure specification
  function of the old state;
- loops become methods with loop invariants, proved equal to a
  specification function;
- the properties the source relies on are lemmas about those functions.

Conventions used throughout:
- Swift `Set`s and dictionaries whose iteration order matters are visited
  in an arbitrary but fixed order (`Sets.Enumerate`).
- Floating-point values are `real`.
- Strings are sequences of characters, with no Unicode normalisation.

## Model

| member | source | states |
|---|---|---|
| Sets.Toggle | runtime-swift/Inertia/Sources/Inertia/Inertia.swift:936-940 | the toggled id's membership flips, every other id keeps its membership |
| Sets.ToggleTwice | runtime-swift/Inertia/Sources/Vibe/Vibe.swift:308-312 | tapping the same view twice restores the selection set |
| Sets.Enumerate | runtime-swift/Inertia/Sources/Inertia/Inertia.swift:1114-1120 | a dictionary or set is visited once per element, with no repeats and nothing missing |
| Strings.Decimal | runtime-swift/Inertia/Sources/Inertia/Inertia.swift:754 | string interpolation of a counter gives a non-empty run of digits with no leading zero unless the value is 0 |
| Strings.DecimalRoundTrip | runtime-swift/Inertia/Sources/Inertia/Inertia.swift:754 | reading the interpolated digits back gives the counter |
| Strings.DecimalInjective | runtime-swift/Inertia/Sources/Inertia/Inertia.swift:754 | different counters render as different strings |
| Strings.SplitOn | runtime-swift/Inertia/Sources/Inertia/Inertia.swift:603 | `components(separatedBy:)` gives at least one piece, and no piece contains the separator |
| Strings.JoinSplit | runtime-swift/Inertia/Sources/Inertia/Inertia.swift:603 | joining the pieces back with the separator gives the original string |
| Strings.SplitJoin | runtime-swift/Inertia/Sources/Inertia/Inertia.swift:603 | splitting a join of separator-free pieces gives the pieces back |
| Strings.SplitPiece | runtime-swift/Inertia/Sources/Inertia/Inertia.swift:603 | a separator-free prefix glues onto the first piece of the rest |
| Strings.NonEmpty | runtime-swift/Inertia/Sources/Inertia/Inertia.swift:631 | `split(separator:)` drops empty pieces: none is left empty, every non-empty piece is kept, and there are no more pieces than before |
| Strings.NonEmptyAppend | runtime-swift/Inertia/Sources/Inertia/Inertia.swift:631 | the kept pieces stay in their order: those of a concatenation are the kept pieces of each part, one after the other |
| Json.Get | runtime-web/vibe-base/src/index.ts:192-195 | a property read gives the field when present and `undefined` otherwise |
| Json.FromOptString | runtime-web/vibe-base/src/index.ts:183-197 | an absent optional string is written as a nullish value, and a present one is not |
| Json.OptString | runtime-web/vibe-base/src/index.ts:183-197 | a nullish value reads back as an absent string |
| Json.OptStringRoundTrip | runtime-web/vibe-base/src/index.ts:183-197 | writing an optional string and reading it back gives the same optional |
| InertiaTree.WithChild | runtime-swift/Inertia/Sources/Inertia/Inertia.swift:31-35 | `addChild` appends the child to the parent's children and points the child's parent link and parent id at the parent; other nodes are untouched |
| InertiaTree.WithRelationship | runtime-swift/Inertia/Sources/Inertia/Inertia.swift:111-138 | `addRelationship` creates missing nodes; with a parent it links the child under it, and the parent becomes the root when it is a container, or when there is no root yet and the parent has no parent link; otherwise the root is kept; without a parent it changes nothing but adding a new node |
| InertiaTree.AddRelationshipKeepsWf | runtime-swift/Inertia/Sources/Inertia/Inertia.swift:111-138 | every registration keeps the tree well formed: children and parents are known nodes, each parent lists its child, and parent links agree with parent ids |
| InertiaTree.LinksStayMatched | runtime-swift/Inertia/Sources/Inertia/Inertia.swift:111-138 | a registration with a parent keeps every parent link naming the recorded parent |
| InertiaTree.FreshChildKeepsRanked | runtime-swift/Inertia/Sources/Inertia/Inertia.swift:111-138 | registering an id the tree does not have, under a parent other than itself, keeps the tree acyclic, with the rank `Raised` gives |
| InertiaTree.Raised | runtime-swift/Inertia/Sources/Inertia/Inertia.swift:111-138 | the grown tree's rank: the new node at 0, every old node one higher, a new parent at 1 |
| InertiaTree.RaisedStep | runtime-swift/Inertia/Sources/Inertia/Inertia.swift:111-138 | after registering a fresh id, each child ranks below its parent under `Raised` |
| InertiaTree.SelfParentHasNoRank | runtime-swift/Inertia/Sources/Inertia/Inertia.swift:64-69 | after `addRelationship(x, x)` no rank exists, so `encode(to:)`, which encodes the children inside each node, never finishes |
| InertiaTree.ChildrenStayClosed | runtime-swift/Inertia/Sources/Inertia/Inertia.swift:111-138 | after a registration under a parent, every listed child is a node of the tree |
| InertiaTree.ParentsStayListed | runtime-swift/Inertia/Sources/Inertia/Inertia.swift:111-138 | after a registration under a parent, every node's parent is a node that lists it among its children |
| InertiaTree.Linked | runtime-swift/Inertia/Sources/Inertia/Inertia.swift:58-62 | `link` over every node keeps the node ids and the root |
| InertiaTree.LinkedWf | runtime-swift/Inertia/Sources/Inertia/Inertia.swift:1114-1120 | after linking every node of a well-formed tree, the tree stays well formed and each node's parent link is its parent id when that parent exists |
| InertiaTree.RepeatedRelationshipAppendsTwice | runtime-swift/Inertia/Sources/Inertia/Inertia.swift:111-138 | registering the same child twice lists it twice under its parent (the children array is not deduplicated) |
| InertiaTree.Tree.constructor | runtime-swift/Inertia/Sources/Inertia/Inertia.swift:72-110 | a new tree has no nodes and no root |
| InertiaTree.Tree.AddChild | runtime-swift/Inertia/Sources/Inertia/Inertia.swift:31-35 | the node map becomes `WithChild` of the old one, and the root is unchanged |
| InertiaTree.Tree.AddRelationship | runtime-swift/Inertia/Sources/Inertia/Inertia.swift:111-138 | the new state is `WithRelationship` of the old state |
| InertiaTree.Tree.LinkAll | runtime-swift/Inertia/Sources/Inertia/Inertia.swift:1114-1120 | the new state is `Linked` of the old state |
| HierarchyIds.IndexManager.constructor | runtime-swift/Inertia/Sources/Inertia/Inertia.swift:847-855 | the shared index map starts empty |
| HierarchyIds.IndexManager.UpdateHierarchyId | runtime-swift/Inertia/Sources/Inertia/Inertia.swift:752-760 | the id is the prefix, `--` and the prefix's counter (0 when it is absent), and the counter goes up by one |
| HierarchyIds.Issue | runtime-swift/Inertia/Sources/Inertia/Inertia.swift:752-760 | a run of registrations issues one id per registration |
| HierarchyIds.Repeat | runtime-swift/Inertia/Sources/Inertia/Inertia.swift:752-760 | n registrations of the same prefix |
| HierarchyIds.IssueCountsUp | runtime-swift/Inertia/Sources/Inertia/Inertia.swift:752-760 | the i-th of n registrations of one prefix gets the counter the prefix started at, plus i |
| HierarchyIds.MakeIdInjective | runtime-swift/Inertia/Sources/Inertia/Inertia.swift:754 | the prefix and the counter are determined by the id they make |
| HierarchyIds.CounterSuffixNotLonger | runtime-swift/Inertia/Sources/Inertia/Inertia.swift:754 | of two ways of reading an id as prefix `--` digits, the one with the shorter prefix has the longer suffix |
| HierarchyIds.IssueAbove | runtime-swift/Inertia/Sources/Inertia/Inertia.swift:752-760 | every issued id carries a counter at least the prefix's starting counter |
| HierarchyIds.IssuedIdsDistinct | runtime-swift/Inertia/Sources/Inertia/Inertia.swift:752-760 | no two registrations of one run get the same id, whatever their prefixes |
| InertiaModel.DataModel.constructor | runtime-swift/Inertia/Sources/Inertia/Inertia.swift:276-293 | a data model starts with no states and no animation routing, and is not actionable |
| InertiaModel.DataModel.HandleSelectedIds | runtime-swift/Inertia/Sources/Inertia/Inertia.swift:1193-1196 | the selected ids from the editor replace the actionable ids |
| InertiaModel.DataModel.HandleMessageActionable | runtime-swift/Inertia/Sources/Inertia/Inertia.swift:1209-1211 | the actionable flag becomes the one received |
| InertiaModel.DataModel.HandleMessageSchema | runtime-swift/Inertia/Sources/Inertia/Inertia.swift:1198-1207 | the routing map and the schema become those routed from this container's wrappers |
| InertiaModel.RoutedAnimationIds | runtime-swift/Inertia/Sources/Inertia/Inertia.swift:1198-1207 | the routing map gains exactly the actionable ids of the wrappers addressed to this container |
| InertiaModel.RoutedLastWins | runtime-swift/Inertia/Sources/Inertia/Inertia.swift:1198-1207 | an actionable id is routed to the animation of the last wrapper that names it |
| InertiaModel.RoutedLeavesOthers | runtime-swift/Inertia/Sources/Inertia/Inertia.swift:1198-1207 | an actionable id that no addressed wrapper names keeps its old routing |
| InertiaModel.RoutedIgnoresOthers | runtime-swift/Inertia/Sources/Inertia/Inertia.swift:1198-1207 | wrappers for other containers have no effect on the routing |
| InertiaModel.AddressedOnly | runtime-swift/Inertia/Sources/Inertia/Inertia.swift:1200 | the wrappers kept are all addressed to this container |
| InertiaModel.RoutedSchemaLastWins | runtime-swift/Inertia/Sources/Inertia/Inertia.swift:1198-1207 | the schema becomes that of the last wrapper addressed to this container |
| InertiaModel.RoutedSchemaUnaddressed | runtime-swift/Inertia/Sources/Inertia/Inertia.swift:1198-1207 | with no wrapper addressed to this container, the schema is unchanged |
| InertiaModel.WebSocketClient.constructor | runtime-swift/Inertia/Sources/Inertia/Inertia.swift:377-387 | the shared client starts with nothing sent |
| InertiaModel.WebSocketClient.SendMessage | runtime-swift/Inertia/Sources/Inertia/Inertia.swift:451-478 | the message, tree and selection together, is appended to what was sent |
| InertiaModel.Tap | runtime-swift/Inertia/Sources/Inertia/Inertia.swift:925-959 | a tap toggles the view's id in the actionable ids only when the model exists, is actionable and the view has an id; otherwise the model is unchanged. Exactly in the toggling case, and only when resolv.conf yields an editor host, one `MessageActionables` with the tree and the new selection is sent; otherwise nothing is sent |
| InertiaModel.OnHierarchyIdChange | runtime-swift/Inertia/Sources/Inertia/Inertia.swift:1122-1153 | the first assignment of an id registers the view in the tree and relinks it; a later change or a cleared id leaves the tree alone. After a first assignment with a data model, and only when resolv.conf yields an editor host, one `MessageActionables` with the relinked tree and the selection is sent; otherwise nothing is sent |
| Strings.TrimLeadingDropsWhitespace | runtime-swift/Inertia/Sources/Inertia/Inertia.swift:610 | trimming leading whitespace keeps a suffix of the string: every character dropped is whitespace (tab or a Unicode space separator), and the result does not start with whitespace |
| Strings.TrimTrailingDropsWhitespace | runtime-swift/Inertia/Sources/Inertia/Inertia.swift:610 | trimming trailing whitespace keeps a prefix of the string: every character dropped is whitespace, and the result does not end with whitespace |
| NameServer.SwiftInt | runtime-swift/Inertia/Sources/Inertia/Inertia.swift:631 | `Int(String)` accepts an optional sign and digits, and a digit-led string never parses as a negative number |
| NameServer.ValidCandidate | runtime-swift/Inertia/Sources/Inertia/Inertia.swift:604-614 | a `nameserver` line yields its second space-separated field, trimmed, only when that is a valid address |
| NameServer.HostFromResolvConf | runtime-swift/Inertia/Sources/Inertia/Inertia.swift:603-626 | the file is split into lines and the host is the first address the lines offer (`FirstValidAddress`) |
| NameServer.FirstAddressOfLines | runtime-swift/Inertia/Sources/Inertia/Inertia.swift:604-626 | the loop collects every valid candidate in line order and returns the first, or none |
| NameServer.ValidAddressesEmpty | runtime-swift/Inertia/Sources/Inertia/Inertia.swift:620-625 | nothing is collected exactly when no line offers a valid address |
| NameServer.ValidAddressesValid | runtime-swift/Inertia/Sources/Inertia/Inertia.swift:613-615 | every collected address passes `isValidIPAddress` |
| NameServer.ValidAddressesFirst | runtime-swift/Inertia/Sources/Inertia/Inertia.swift:620-622 | the first collected address comes from the first line that offers a valid one |
| NameServer.FirstValidAddressIsFirst | runtime-swift/Inertia/Sources/Inertia/Inertia.swift:597-627 | the host is the first valid nameserver address in the file, and none when no line gives one |
| NameServer.OctetPatternExact | example/VibeDemoCompose/MyApplication/app/src/main/java/com/example/myapplication/MainActivity.kt:84-90 | the octet pattern matches exactly one to three digits denoting at most 255 |
| NameServer.NonEmptyWhenAllNonEmpty | runtime-swift/Inertia/Sources/Inertia/Inertia.swift:631 | dropping empty pieces changes nothing when no piece is empty |
| NameServer.Ipv4PatternImpliesValid | example/VibeDemoCompose/MyApplication/app/src/main/java/com/example/myapplication/MainActivity.kt:84-90 | every address the Kotlin pattern accepts is also accepted by the Swift validator |
| NameServer.SwiftValidatorDropsEmptyPieces | runtime-swift/Inertia/Sources/Inertia/Inertia.swift:630-636 | `split` drops empty pieces, so four accepted pieces with an extra dot anywhere, such as `1..2.3.4`, pass the Swift validator; the Kotlin pattern rejects them |
| NameServer.SwiftValidatorAcceptsSign | runtime-swift/Inertia/Sources/Inertia/Inertia.swift:630-636 | `Int(_:)` takes a sign, so accepted pieces with a signed first one, such as `+1.2.3.4`, pass the Swift validator; the Kotlin pattern rejects them |
| NameServer.SwiftPiecesValid | runtime-swift/Inertia/Sources/Inertia/Inertia.swift:630-636 | four dot-free pieces that each parse to 0...255 joined with dots pass the Swift validator |
| NameServer.DecimalOfOctet | example/VibeDemoCompose/MyApplication/app/src/main/java/com/example/myapplication/MainActivity.kt:84-90 | a number up to 255 renders as one to three digits with that value |
| NameServer.DottedQuadValid | runtime-swift/Inertia/Sources/Inertia/Inertia.swift:630-636 | four numbers up to 255 joined with dots pass both validators |
| VibeRuntime.WithRelationship | runtime-swift/Inertia/Sources/Vibe/Vibe.swift:33-58 | `addRelationship` creates missing nodes and, with a parent, appends the child to it and makes the parent the root when it is a container and the child otherwise; without a parent only the node is created |
| VibeRuntime.LastParentedCallDecidesRoot | runtime-swift/Inertia/Sources/Vibe/Vibe.swift:33-58 | after any series of registrations the root is fixed by the last one that had a parent |
| VibeRuntime.UnparentedCallsKeepRoot | runtime-swift/Inertia/Sources/Vibe/Vibe.swift:33-58 | registrations without a parent never change the root |
| VibeRuntime.Tree.constructor | runtime-swift/Inertia/Sources/Vibe/Vibe.swift:29-31 | a new tree has no nodes and no root |
| VibeRuntime.Tree.AddRelationship | runtime-swift/Inertia/Sources/Vibe/Vibe.swift:33-58 | the new state is `WithRelationship` of the old state |
| VibeRuntime.DataModel.constructor | runtime-swift/Inertia/Sources/Vibe/Vibe.swift:103-115 | the data model holds the container id, tree and selection it was given |
| VibeRuntime.HelloView.constructor | runtime-swift/Inertia/Sources/Vibe/Vibe.swift:285-293 | a wrapped view starts without its selection border |
| VibeRuntime.WebSocketSharedManager.constructor | runtime-swift/Inertia/Sources/Vibe/Vibe.swift:164-172 | the shared manager starts with nothing sent |
| VibeRuntime.WebSocketSharedManager.SendData | runtime-swift/Inertia/Sources/Vibe/Vibe.swift:185-209 | the message, tree and selection together, is appended to what was sent |
| VibeRuntime.HelloView.Tap | runtime-swift/Inertia/Sources/Vibe/Vibe.swift:300-329 | a tap always flips the border, and with a data model flips this view's id in the selection, leaving the tree alone; with a data model and an editor host from resolv.conf, one `MessageItem` with the tree and the new selection is sent, otherwise nothing is sent |
| VibeRuntime.HelloView.OnAppear | runtime-swift/Inertia/Sources/Vibe/Vibe.swift:336-356 | on appearing, the view is registered in the tree under the parent id it inherits; with a data model and an editor host from resolv.conf, one `MessageItem` with the updated tree and the selection is sent, otherwise nothing is sent |
| VibeBaseTree.NodeRoundTrip | runtime-web/vibe-base/src/index.ts:183-197 | decoding an encoded node gives the same id, parent id and ordered child tree, as nodes with no parent link |
| VibeBaseTree.Link | runtime-web/vibe-base/src/index.ts:175-180 | `link` changes only parent links: a node with a truthy parent id and a tree points at that parent if the map has it |
| VibeBaseTree.EncodedNodes | runtime-web/vibe-base/src/index.ts:243-251 | the encoded node map has the same keys as the tree's |
| VibeBaseTree.DecodedTree | runtime-web/vibe-base/src/index.ts:254-271 | a decoded tree has exactly the keys of the JSON node map |
| VibeBaseTree.TreeRoundTrip | runtime-web/vibe-base/src/index.ts:243-271 | `fromJSON(toJSON(t))` keeps the tree id, the keys, every node's encoding and the root's id and encoding |
| VibeBaseTree.TreeJsonParts | runtime-web/vibe-base/src/index.ts:243-251 | the JSON holds the id, the encoded map, and the encoded root exactly when there is a root |
| VibeBaseTree.EncodedEntriesDecode | runtime-web/vibe-base/src/index.ts:258-261 | every entry `toJSON` writes into the node map decodes, with the tree set, to a node with the same encoding |
| VibeBaseTree.TreeEquals | runtime-web/vibe-base/src/index.ts:273-275 | `equals` is true only when this tree has a root |
| VibeBaseTree.TreeEqualsIsNotAnEquivalence | runtime-web/vibe-base/src/index.ts:273-275 | `equals` is neither reflexive (two rootless trees differ) nor symmetric |
| VibeBaseTree.TreeEqualsByRootId | runtime-web/vibe-base/src/index.ts:199-201 | two trees with roots are equal exactly when the root ids agree |
| VibeBaseTree.WithRelationship | runtime-web/vibe-base/src/index.ts:217-240 | a falsy parent id only ensures the node; any other parent behaves as in the Swift runtime |
| VibeBaseTree.AddRelationshipKeepsWf | runtime-web/vibe-base/src/index.ts:217-240 | every registration keeps the tree well formed, unless an empty parent id creates a new node |
| VibeBaseTree.EmptyParentBreaksWf | runtime-web/vibe-base/src/index.ts:220-224 | a new node created with the empty parent id breaks the invariant, because that parent is not in the map |
| VibeBaseTree.LiveLink | runtime-web/vibe-base/src/index.ts:175-180 | linking a live node keeps its parent id and children, and points it at its parent exactly when the parent is in the map |
| VibeBaseTree.LiveLinked | runtime-web/vibe-base/src/index.ts:268 | linking every entry keeps the keys and the root |
| VibeBaseTree.LiveLinkedPointsAtParents | runtime-web/vibe-base/src/index.ts:268 | after linking, a node whose recorded parent exists points at it |
| VibeBaseTree.UnfoldNode | runtime-web/vibe-base/src/index.ts:183-189 | on an acyclic live tree, the node `toJSON` walks from an entry carries that entry's id, parent id and parent link, and its children carry exactly the entry's child ids in order |
| VibeBaseTree.Unfold | runtime-web/vibe-base/src/index.ts:243-251 | the live tree as `Tree.toJSON` encodes it keeps the tree id and the keys, and its root is the root's own map entry |
| VibeBaseTree.UnfoldNodeRankFree | runtime-web/vibe-base/src/index.ts:183-189 | the unfolding does not depend on the rank that shows the tree acyclic |
| VibeBaseTree.UnfoldRankFree | runtime-web/vibe-base/src/index.ts:243-251 | so the encoding of the live tree is determined by the tree alone |
| VibeBaseTree.NodeJsonDetermines | runtime-web/vibe-base/src/index.ts:183-189 | two nodes with the same JSON agree on id, parent id and child ids |
| VibeBaseTree.LiveTreeRoundTrip | runtime-web/vibe-base/src/index.ts:183-271 | `fromJSON` of the live tree's `toJSON` keeps the tree id and the keys, gives every entry its id, parent id and ordered child ids, and keeps the root's id |
| VibeBaseTree.FreshChildKeepsRanked | runtime-web/vibe-base/src/index.ts:217-240 | registering an id the tree does not have keeps the live tree acyclic, so it can still be encoded |
| VibeBaseTree.SelfParentHasNoRank | runtime-web/vibe-base/src/index.ts:183-189 | after `addRelationship(x, x)` with a truthy `x`, no rank exists, so `toJSON` recurses without end |
| VibeBaseTree.Tree.constructor | runtime-web/vibe-base/src/index.ts:213-215 | a new tree has no nodes and no root |
| VibeBaseTree.Tree.AddChild | runtime-web/vibe-base/src/index.ts:169-173 | the parent gains the child, whose parent link and parent id point at the parent |
| VibeBaseTree.Tree.AddRelationship | runtime-web/vibe-base/src/index.ts:217-240 | the new state is `WithRelationship` of the old state |
| VibeBaseTree.Tree.LinkAll | runtime-web/vibe-base/src/index.ts:268 | the new state is `LiveLinked` of the old state |
| VibeBaseModel.StateFor | runtime-web/vibe-base/src/index.ts:143-147 | an object's initial state has its id, is not cancelled, and has `trigger` false exactly when its `invokeType` is the number 0 (the enum's `trigger`), null otherwise; a string invoke type never matches |
| VibeBaseModel.StringInvokeTypeGetsNoTrigger | runtime-web/vibe-base/src/index.ts:145 | an object whose invoke type is written as a string, as the Swift schemas write it, gets no trigger state |
| VibeBaseModel.IntendedStateFor | runtime-web/vibe-base/src/index.ts:143-147 | the intended state: `trigger` false exactly for a trigger animation, written as the string "trigger" or as the number 0 |
| VibeBaseModel.IntendedStateForTrigger | runtime-web/vibe-base/src/index.ts:145 | the intended state arms a "trigger" string that the written one leaves null, and agrees with it on numeric invoke types |
| VibeBaseModel.ObjectsById | runtime-web/vibe-base/src/index.ts:141-142 | the objects map is keyed by exactly the objects' ids |
| VibeBaseModel.ObjectsByIdLastWins | runtime-web/vibe-base/src/index.ts:141-142 | the entry for an id is the last object with that id |
| VibeBaseModel.ObjectsByIdKeyed | runtime-web/vibe-base/src/index.ts:141-142 | the entry under each key has that key as its id |
| VibeBaseModel.StatesFor | runtime-web/vibe-base/src/index.ts:139-148 | there is a state per object, uncancelled and carrying the object's id, with `trigger` false exactly when the object's invoke type is the number 0 and null otherwise |
| VibeBaseModel.DataModel.constructor | runtime-web/vibe-base/src/index.ts:103-116 | a new model has no objects, states or canvas sizes and an empty selection |
| VibeBaseModel.DataModel.GetId | runtime-web/vibe-base/src/index.ts:118-120 | the id is the container id |
| VibeBaseModel.DataModel.Init | runtime-web/vibe-base/src/index.ts:132-152 | nothing changes when objects are already loaded or the schema or its objects are missing; otherwise the objects are keyed by id and each gets its initial state as written (`StatesFor`) |
| WebVibeBase.Copied | web/vibe-base/src/index.ts:125-134 | the stored copy keeps the eight listed fields and drops `container` |
| WebVibeBase.CopiedById | web/vibe-base/src/index.ts:124-141 | the objects map is keyed by exactly the objects' ids |
| WebVibeBase.DataModel.constructor | web/vibe-base/src/index.ts:187-193 | a new model has no objects, states or canvas sizes |
| WebVibeBase.DataModel.GetId | web/vibe-base/src/index.ts:195-197 | the id is the container id |
| WebVibeBase.DataModel.Init | web/vibe-base/src/index.ts:118-179 | the editor's schema is preferred to the loaded one; when the chosen schema has objects both maps are rebuilt from them, the states as written (`StatesFor`), otherwise both are kept |
| WebVibeBase.InitialStates | web/vibe-base/src/index.ts:136-140 | every recorded state has its object's id, is uncancelled, and has `trigger` false when the invoke type is the number 0 and null otherwise, the string "trigger" included |
| VibeReact.Prop | runtime-web/vibe-react/src/index.tsx:110-114 | reading a property of `undefined` or `null` throws, and any other value gives the property |
| VibeReact.ObjProp | runtime-web/vibe-react/src/index.tsx:116-120 | a property of an object literal reads back as the value it was given |
| VibeReact.MessageActionableRoundTrip | runtime-web/vibe-react/src/index.tsx:110-121 | `messageActionableFromJSON(messageActionableToJSON(m))` gives back `m` |
| VibeReact.Dedup | runtime-web/vibe-react/src/index.tsx:129 | `new Set(xs)` keeps each element once, and exactly the elements of `xs` |
| VibeReact.DedupOfDistinct | runtime-web/vibe-react/src/index.tsx:129 | a list without repeats is unchanged by `new Set` |
| VibeReact.Strings | runtime-web/vibe-react/src/index.tsx:127-131 | reading an array of strings gives one string per item, item by item |
| VibeReact.StringArray | runtime-web/vibe-react/src/index.tsx:133-137 | `Array.from` of a set gives an array with one item per element |
| VibeReact.StringsOfArray | runtime-web/vibe-react/src/index.tsx:133-137 | the strings of an encoded array are the original strings |
| VibeReact.SetRoundTrip | runtime-web/vibe-react/src/index.tsx:127-137 | a set written as an array and read back is the same set, in the same order |
| VibeReact.MessageSelectedRoundTrip | runtime-web/vibe-react/src/index.tsx:127-137 | `messageSelectedFromJSON(messageSelectedToJSON(m))` gives back `m` |
| VibeReact.MissingSelectionIsEmpty | runtime-web/vibe-react/src/index.tsx:127-131 | a message without `selectedIds` selects nothing |
| VibeReact.SelectedIdsDistinct | runtime-web/vibe-react/src/index.tsx:127-131 | a decoded selection holds each id once |
| VibeReact.MessageSchemaRoundTrip | runtime-web/vibe-react/src/index.tsx:144-155 | the schema message passes its wrappers through unchanged both ways |
| VibeReact.MessageActionablesRoundTrip | runtime-web/vibe-react/src/index.tsx:89-104 | the ids come back unchanged and the tree comes back as `Tree.fromJSON` rebuilds it, with its id and keys |
| VibeReact.AnimationContainerRoundTrip | runtime-web/vibe-react/src/index.tsx:172-186 | an animation container survives encoding and decoding |
| VibeReact.VibeShapeFromJson | runtime-web/vibe-react/src/index.tsx:201-213 | decoding a shape throws exactly when the value or its `position` is `undefined` or `null` |
| VibeReact.VibeShapeRoundTrip | runtime-web/vibe-react/src/index.tsx:201-229 | all ten shape fields survive encoding and decoding, the position's coordinates included |
| VibeReact.ListOr | runtime-web/vibe-react/src/index.tsx:240 | a missing list (`?? []`) decodes as empty |
| VibeReact.MapAll | runtime-web/vibe-react/src/index.tsx:240 | a decoded list has one element per item, each the item decoded |
| VibeReact.EncodeAll | runtime-web/vibe-react/src/index.tsx:244-249 | an encoded list has one item per element, each the element encoded |
| VibeReact.MapAllInverse | runtime-web/vibe-react/src/index.tsx:237-249 | when decoding undoes encoding for each element, decoding a list undoes encoding it |
| VibeReact.VibeSchemaRoundTrip | runtime-web/vibe-react/src/index.tsx:237-249 | a schema survives encoding and decoding, its objects included |
| VibeReact.MissingObjectsAreEmpty | runtime-web/vibe-react/src/index.tsx:240 | a schema without `objects` decodes with none |
| VibeReact.VibeSchemaWrapperRoundTrip | runtime-web/vibe-react/src/index.tsx:259-275 | a schema wrapper survives encoding and decoding |
| VibeReact.KeyframeRoundTrip | runtime-web/vibe-react/src/index.tsx:340-354 | a keyframe survives encoding and decoding |
| VibeReact.AnimationSchemaRoundTrip | runtime-web/vibe-react/src/index.tsx:370-386 | an animation schema survives encoding and decoding, its keyframes included |
| VibeReact.MissingKeyframesAreEmpty | runtime-web/vibe-react/src/index.tsx:375 | an animation without `keyframes` decodes with none |
| VibeReactHooks.UseStringContext | runtime-web/vibe-react/src/index.tsx:34-56 | the parent-id and container-id hooks throw exactly on a falsy value (absent or empty), and otherwise return it |
| VibeReactHooks.UseVibeIsContainer | runtime-web/vibe-react/src/index.tsx:60-69 | the container hook throws unless the value is `true` |
| VibeReactHooks.VibeableHooks | runtime-web/vibe-react/src/index.tsx:701-705 | a `Vibeable` renders exactly when it has a data model, a truthy parent id, a truthy container id and sits directly in a container; a missing data model is the error reported first |
| VibeReactHooks.VibeableInContainerRenders | runtime-web/vibe-react/src/index.tsx:683-692 | a `Vibeable` directly inside a container with a non-empty id renders |
| VibeReactHooks.NestedVibeableThrows | runtime-web/vibe-react/src/index.tsx:816-820 | a `Vibeable` inside another `Vibeable` always throws, because the inner one sees `false` for "is container" |
| VibeReactHooks.RegisterEffect | runtime-web/vibe-react/src/index.tsx:791-795 | the registration effect's body: given a truthy id the view is registered under the parent id from the context; otherwise the tree is unchanged |
| VibeReactHooks.MountEffects | runtime-web/vibe-react/src/index.tsx:708-799 | on a `Vibeable`'s first commit the registration effect sees no id, so the tree is unchanged, and only then is the next id drawn from the shared counter |
| VibeReactHooks.MadeIdTruthy | runtime-web/vibe-react/src/index.tsx:715-725 | every id the counter issues is truthy |
| VibeReactHooks.IntendedMountEffects | runtime-web/vibe-react/src/index.tsx:791-799 | with the id assigned first and kept, the view is registered under its parent with the id drawn from the counter |
| VibeReactHooks.LinkEffectAsWritten | runtime-web/vibe-react/src/index.tsx:801-812 | the link effect as written leaves the tree unchanged, because `Object.values` of a `Map` lists nothing |
| VibeReactHooks.LinkEffect | runtime-web/vibe-react/src/index.tsx:801-812 | the link effect as intended links every node of the tree |
| VibeReactHooks.LinkEffectMissesLinks | runtime-web/vibe-react/src/index.tsx:801-812 | on a two-node tree the intended effect sets a parent link that the effect as written never sets |
| InertiaReact.RoutedAnimationIds | runtime-web/inertia-react/src/index.tsx:147-187 | the routing map gains exactly the actionable ids of the wrappers addressed to this container |
| InertiaReact.RoutedSchemas | runtime-web/inertia-react/src/index.tsx:147-187 | the schema map gains exactly the animation ids of the wrappers addressed to this container |
| InertiaReact.RoutedAnimationIdLastWins | runtime-web/inertia-react/src/index.tsx:170-172 | an actionable id is routed to the animation id of the last addressed wrapper that names it |
| InertiaReact.RoutedSchemaLastWins | runtime-web/inertia-react/src/index.tsx:173-174 | an animation id holds the schema of the last addressed wrapper that names it |
| InertiaReact.UnaddressedChangesNothing | runtime-web/inertia-react/src/index.tsx:167-185 | wrappers for other containers change neither map |
| InertiaReact.SchemaMap | runtime-web/inertia-react/src/index.tsx:222-230 | `loadAnimations` keys the schema map by exactly the loaded schemas' ids |
| InertiaReact.IdentityIds | runtime-web/inertia-react/src/index.tsx:222-230 | `loadAnimations` maps every loaded schema id to itself |
| InertiaReact.SchemaMapLastWins | runtime-web/inertia-react/src/index.tsx:222-230 | a later schema with the same id overwrites an earlier one |
| InertiaReact.DataModel.constructor | runtime-web/inertia-react/src/index.tsx:189-191 | a new data model has empty maps, no pairs and is not in edit mode |
| InertiaReact.DataModel.LoadAnimations | runtime-web/inertia-react/src/index.tsx:197-243 | in dev mode or on a failed fetch both maps are kept; otherwise they become the loaded schemas keyed by id and the identity routing |
| InertiaReact.HandleMessageSchema | runtime-web/inertia-react/src/index.tsx:147-187 | without a data model nothing happens; otherwise both maps become their routed values, and the pairs and edit mode are kept |
| InertiaReact.Without | runtime-web/inertia-react/src/index.tsx:625-626 | the pairs that remain are exactly those of other views, in order, and none is left for this view |
| InertiaReact.WithoutAppended | runtime-web/inertia-react/src/index.tsx:625-627 | removing a view's pairs also removes a pair of that view appended last |
| InertiaReact.ClickedPairs | runtime-web/inertia-react/src/index.tsx:622-627 | after a click the view has a pair exactly when it had none before |
| InertiaReact.ClickFlipsSelection | runtime-web/inertia-react/src/index.tsx:614-627 | a click flips whether the view is selected |
| InertiaReact.ClickKeepsOthers | runtime-web/inertia-react/src/index.tsx:622-627 | a click keeps every pair of other views, in order |
| InertiaReact.ClickTwiceRestores | runtime-web/inertia-react/src/index.tsx:622-627 | clicking an unselected view twice restores the pairs |
| InertiaReact.Inertiaable.constructor | runtime-web/inertia-react/src/index.tsx:583-591 | a new component has its prefix and no hierarchy id yet |
| InertiaReact.Inertiaable.AssignHierarchyId | runtime-web/inertia-react/src/index.tsx:593-602 | the id is the prefix, `--` and the shared counter (0 when absent), and the counter goes up by one |
| InertiaReact.Inertiaable.HandleClick | runtime-web/inertia-react/src/index.tsx:616-636 | with an id, a prefix and edit mode, the view's pairs are toggled and the new list is sent; otherwise nothing is sent and the pairs are kept; the maps and the edit mode never change |
| ComposeTree.WithChildOnce | example/VibeDemoCompose/MyApplication/app/src/main/java/com/example/myapplication/MainActivity.kt:213-224 | `addChild` points the child's parent link and parent id at the parent and appends the child only when no child with its id is listed; other nodes are untouched |
| ComposeTree.WithRelationshipOnce | example/VibeDemoCompose/MyApplication/app/src/main/java/com/example/myapplication/MainActivity.kt:254-267 | `addRelationship` creates missing nodes; with a parent it links the child under it and moves the root to the parent when the parent is a container or when there is no root and the parent has no parent |
| ComposeTree.FirstCallAgreesWithSwift | example/VibeDemoCompose/MyApplication/app/src/main/java/com/example/myapplication/MainActivity.kt:213-224 | a call that adds a child not yet listed does what the Swift builder does |
| ComposeTree.AddRelationshipKeepsInvariants | example/VibeDemoCompose/MyApplication/app/src/main/java/com/example/myapplication/MainActivity.kt:254-267 | every registration keeps the tree well formed and every child list free of repeats |
| ComposeTree.FirstChildKeepsInvariants | example/VibeDemoCompose/MyApplication/app/src/main/java/com/example/myapplication/MainActivity.kt:254-267 | registering a child the parent does not list yet keeps the tree well formed and every child list free of repeats |
| ComposeTree.RepeatedChildKeepsInvariants | example/VibeDemoCompose/MyApplication/app/src/main/java/com/example/myapplication/MainActivity.kt:215-220 | re-registering a listed child keeps the child lists and the invariants |
| ComposeTree.RepeatedRelationshipIsIdempotent | example/VibeDemoCompose/MyApplication/app/src/main/java/com/example/myapplication/MainActivity.kt:254-267 | repeating a registration changes nothing more |
| ComposeTree.Tree.constructor | example/VibeDemoCompose/MyApplication/app/src/main/java/com/example/myapplication/MainActivity.kt:250-252 | a new tree has no nodes and no root |
| ComposeTree.Tree.AddChild | example/VibeDemoCompose/MyApplication/app/src/main/java/com/example/myapplication/MainActivity.kt:213-224 | the node map becomes `WithChildOnce` of the old one, and the root is unchanged |
| ComposeTree.Tree.AddRelationship | example/VibeDemoCompose/MyApplication/app/src/main/java/com/example/myapplication/MainActivity.kt:254-267 | the new state is `WithRelationshipOnce` of the old state |
| ComposeTree.NodeToDTO | example/VibeDemoCompose/MyApplication/app/src/main/java/com/example/myapplication/MainActivity.kt:233-237 | `toDTO` keeps the id and parent id, and leaves the children out exactly when there are none |
| ComposeTree.Build | example/VibeDemoCompose/MyApplication/app/src/main/java/com/example/myapplication/MainActivity.kt:277-284 | `build` makes a node with the DTO's id and parent id and no parent link |
| ComposeTree.NodeRoundTrip | example/VibeDemoCompose/MyApplication/app/src/main/java/com/example/myapplication/MainActivity.kt:233-284 | building an encoded node gives back its ordered tree of ids and parent ids |
| ComposeTree.Link | example/VibeDemoCompose/MyApplication/app/src/main/java/com/example/myapplication/MainActivity.kt:226-231 | `link` keeps the id tree and points a node with a parent id at that parent when the map has it, at nothing otherwise |
| ComposeTree.TreeToDTO | example/VibeDemoCompose/MyApplication/app/src/main/java/com/example/myapplication/MainActivity.kt:269-272 | the DTO has the tree's id and keys, and a root exactly when the tree has one |
| ComposeTree.DecodedTree | example/VibeDemoCompose/MyApplication/app/src/main/java/com/example/myapplication/MainActivity.kt:275-291 | `fromDTO` gives the DTO's id and keys, and a root exactly when the DTO has one |
| ComposeTree.DecodedNodes | example/VibeDemoCompose/MyApplication/app/src/main/java/com/example/myapplication/MainActivity.kt:285-289 | the rebuilt map has exactly the DTO's keys |
| ComposeTree.TreeRoundTrip | example/VibeDemoCompose/MyApplication/app/src/main/java/com/example/myapplication/MainActivity.kt:269-291 | `fromDTO(toDTO(t))` keeps the id, the keys, every node's id tree and the root's id tree, with the root unlinked |
| ComposeTree.DecodedEntriesLinked | example/VibeDemoCompose/MyApplication/app/src/main/java/com/example/myapplication/MainActivity.kt:289 | a rebuilt map entry whose recorded parent is in the map is linked to it |
| ComposeTree.UnfoldNode | example/VibeDemoCompose/MyApplication/app/src/main/java/com/example/myapplication/MainActivity.kt:233-237 | on an acyclic live tree, the node `toDTO` walks from an entry carries that entry's id, parent id and parent link, and its children carry exactly the entry's child ids in order |
| ComposeTree.Unfold | example/VibeDemoCompose/MyApplication/app/src/main/java/com/example/myapplication/MainActivity.kt:269-272 | the live tree as `Tree.toDTO` encodes it keeps the tree id and the keys, and its root is the root's own map entry |
| ComposeTree.IdsDetermine | example/VibeDemoCompose/MyApplication/app/src/main/java/com/example/myapplication/MainActivity.kt:233-237 | two nodes with the same id tree agree on id, parent id and child ids |
| ComposeTree.LiveTreeRoundTrip | example/VibeDemoCompose/MyApplication/app/src/main/java/com/example/myapplication/MainActivity.kt:233-291 | `fromDTO` of the live tree's `toDTO` keeps the tree id and the keys, gives every entry its id, parent id and ordered child ids, and keeps the root's id |
| ComposeTree.FreshChildKeepsRanked | example/VibeDemoCompose/MyApplication/app/src/main/java/com/example/myapplication/MainActivity.kt:254-267 | registering an id the tree does not have keeps the live tree acyclic, so it can still be encoded |
| ComposeTree.SelfParentHasNoRank | example/VibeDemoCompose/MyApplication/app/src/main/java/com/example/myapplication/MainActivity.kt:233-237 | after `addRelationship(x, x)` no rank exists, so `toDTO` recurses without end |
| ComposeTree.FromDTO | example/VibeDemoCompose/MyApplication/app/src/main/java/com/example/myapplication/MainActivity.kt:275-291 | the loop that fills the map, builds the root and links the entries gives `DecodedTree` |
| ComposeTree.BuildEntries | example/VibeDemoCompose/MyApplication/app/src/main/java/com/example/myapplication/MainActivity.kt:285-287 | the map gets exactly the DTO's keys, each holding its entry built |
| ComposeTree.LinkEntries | example/VibeDemoCompose/MyApplication/app/src/main/java/com/example/myapplication/MainActivity.kt:289 | every entry, and no other, is linked against the map's own keys |
| ComposeModel.Applied | example/VibeDemoCompose/MyApplication/app/src/main/java/com/example/myapplication/MainActivity.kt:542-559 | each block changes only its own fields (the selection, the schema with one routing entry, or the edit flag), and the states are always kept |
| ComposeModel.DataModel.constructor | example/VibeDemoCompose/MyApplication/app/src/main/java/com/example/myapplication/MainActivity.kt:188-197 | a new model has no states, no routing and is not in edit mode |
| ComposeModel.DataModel.CopyMutable | example/VibeDemoCompose/MyApplication/app/src/main/java/com/example/myapplication/MainActivity.kt:579-591 | the copy is a new model with the same container and the same tree, whose fields are those of the original with the block applied |
| ComposeModel.OnSchema | example/VibeDemoCompose/MyApplication/app/src/main/java/com/example/myapplication/MainActivity.kt:546-556 | after the schema wrappers the model holds the routing and the schema that the Swift handler gives; the selection, the states and the edit flag are kept |
| ComposeModel.Vibeable.constructor | example/VibeDemoCompose/MyApplication/app/src/main/java/com/example/myapplication/MainActivity.kt:596-608 | a new composable has its prefix and no hierarchy id yet |
| ComposeModel.Vibeable.AssignHierarchyId | example/VibeDemoCompose/MyApplication/app/src/main/java/com/example/myapplication/MainActivity.kt:609-613 | the id is the prefix, `--` and the shared counter (0 when absent), and the counter goes up by one |
| ComposeModel.Vibeable.Register | example/VibeDemoCompose/MyApplication/app/src/main/java/com/example/myapplication/MainActivity.kt:615-618 | once an id is assigned the view is registered in the tree under the parent from the context; before that the tree is unchanged |
| ComposeModel.Vibeable.Click | example/VibeDemoCompose/MyApplication/app/src/main/java/com/example/myapplication/MainActivity.kt:716-731 | in edit mode with an id, the click sends the selection with this view's id toggled; otherwise nothing is sent |
| EditorTypes.Flatten | editor/editor/WebSocketServer.swift:204-206 | the concatenated id lists hold exactly the ids of the lists |
| EditorTypes.PreOrder | editor/editor/WebSocketServer.swift:201-209 | a subtree's id list starts with the node's own id |
| EditorTypes.PreOrderNamesSubtree | editor/editor/WebSocketServer.swift:201-209 | the pre-order list names exactly the nodes of the subtree |
| EditorTypes.TreeIds | editor/editor/WebSocketServer.swift:196-199 | a tree without a root has no ids, and otherwise its ids include the root's |
| EditorServer.WrittenSlotsSnoc | editor/editor/WebSocketServer.swift:183-186 | choosing one more id adds the slot the table gives for it, when the table knows it, and no other slot |
| EditorServer.UpdatedKeepsTable | editor/editor/WebSocketServer.swift:163-194 | an update keeps every table slot pointing at a packet, never removes a packet and adds at most one |
| EditorServer.UpdatedRecordsWhenKnown | editor/editor/WebSocketServer.swift:163-194 | a tree with a root is kept when every packet it overlaps has an id the table knows, the merge writing it into the slot of the chosen id |
| EditorServer.TwoNodeTreeIds | editor/editor/WebSocketServer.swift:196-209 | the ids of a root with one child are those two ids |
| EditorServer.SecondOverwritesFirst | editor/editor/WebSocketServer.swift:166-188 | a first tree becomes packet 0, and a second tree sharing an id overwrites it through the chosen id `A` without a new table entry |
| EditorServer.ThirdMessageLost | editor/editor/WebSocketServer.swift:177-193 | a third tree that overlaps packet 0, none of whose ids is in the table, is neither merged nor appended, whatever the loop chose: it is lost |
| EditorServer.UpdatedByIndex | editor/editor/WebSocketServer.swift:163-194 | with the intended merge, a tree without a root changes nothing |
| EditorServer.UpdatedByIndexRecords | editor/editor/WebSocketServer.swift:163-194 | with the intended merge every tree with a root is recorded, the table stays valid and at most one packet is added |
| EditorServer.RetrieveAllIds | editor/editor/WebSocketServer.swift:201-209 | the loop collects the pre-order ids of the subtree |
| EditorServer.RetrieveTreeIds | editor/editor/WebSocketServer.swift:196-199 | a tree without a root has no id list; otherwise the list is the root's pre-order ids, the root first |
| EditorServer.Server.constructor | editor/editor/WebSocketServer.swift:18-54 | a new server listens on the `UInt16` port it is given and has no clients, packets, table entries, translations or sent messages |
| EditorServer.Server.Reset | editor/editor/WebSocketServer.swift:61-67 | every connection is cancelled and none is kept; the packets and the table are untouched |
| EditorServer.Server.Send | editor/editor/WebSocketServer.swift:224-244 | a payload is queued only for a connected client |
| EditorServer.Server.UpdateTreePackets | editor/editor/WebSocketServer.swift:163-194 | the packets and the table change as `updateTreePackets` is written, given the id `first(where:)` chose per packet, including its lost updates |
| EditorServer.Server.MergeLoop | editor/editor/WebSocketServer.swift:175-188 | the loop chooses for each packet an id as `first(where:)` does, exactly the table slots of the chosen ids receive the new packet, the table is unchanged, and the result tells whether any packet overlapped |
| EditorServer.Server.MergeStep | editor/editor/WebSocketServer.swift:178-187 | one turn chooses an id exactly when the packet overlaps and the table knows one of its ids, and then overwrites that id's slot and nothing else |
| EditorServer.Server.UpdateTreePacketsByIndex | editor/editor/WebSocketServer.swift:163-194 | the intended update: the packets and the table become `UpdatedByIndex` of the old ones |
| EditorServer.Server.HandleMessage | editor/editor/WebSocketServer.swift:144-161 | `actionables` update the packets as `updateTreePackets` is written, `translationEnded` goes to the callback, `actionable` and `schema` change nothing, and a payload that does not decode traps |
| EditorTreeView.DescendantSelectedIff | editor/editor/ViewHierarchy/TreeView.swift:48-53 | a node has a selected descendant exactly when some id strictly below it is selected |
| EditorTreeView.TreeNode.constructor | editor/editor/ViewHierarchy/TreeView.swift:40-45 | a new node caches whether it has a selected descendant |
| EditorTreeView.TreeNode.Appear | editor/editor/ViewHierarchy/TreeView.swift:147-150 | on appearing the cached descendant flag is recomputed |
| EditorTreeView.TreeNode.ToggleExpanded | editor/editor/ViewHierarchy/TreeView.swift:71-89 | the chevron removes the id when the node shows as expanded and adds it otherwise; a node that is selected or above a selection stays expanded, any other flips |
| EditorTreeView.TreeNode.ToggleSelected | editor/editor/ViewHierarchy/TreeView.swift:91-97 | a tap flips the selection of this node's id and of no other id |
| EditorTreeView.ItemOfItem | editor/editor/ViewHierarchy/TreeView.swift:202-211 | re-converting an item keeps its id tree, names every item by its id and leaves no empty child list |
| EditorTreeView.ItemOfItemFixes | editor/editor/ViewHierarchy/TreeView.swift:202-211 | an item already in converted form converts to itself |
| EditorTreeView.ItemOfNode | editor/editor/ViewHierarchy/TreeView.swift:213-222 | converting a node keeps its ordered id tree, names every item by its id and leaves the children out exactly when there are none |
| EditorTreeView.ItemOfNodeConvertsOnce | editor/editor/ViewHierarchy/TreeView.swift:218-220 | the second conversion of the converted children changes nothing |
| EditorTreeView.ConvertedEqualsById | editor/editor/ViewHierarchy/TreeView.swift:12-14 | item equality compares ids only, so a converted node equals any item with its id |
| EditorTreeView.RunEnd | editor/editor/ViewHierarchy/TreeView.swift:253 | `\d+` takes the longest run of digits |
| EditorTreeView.AheadReaches | editor/editor/ViewHierarchy/TreeView.swift:253 | the lookahead sees a later `--<digit>` unless a line end lies between (without dot-all) |
| EditorTreeView.StripFromPrefix | editor/editor/ViewHierarchy/TreeView.swift:253-254 | stripping an id built by the counter scheme, from inside its prefix, leaves the rest of the prefix |
| EditorTreeView.RunEndAllDigits | editor/editor/ViewHierarchy/TreeView.swift:253 | a digit run that reaches the end of the string ends there |
| EditorTreeView.StripCounterRoundTrip | editor/editor/ViewHierarchy/TreeView.swift:252-255 | the written pattern recovers the prefix of every id whose prefix has no line end |
| EditorTreeView.StripCounterDotAllRoundTrip | editor/editor/ViewHierarchy/TreeView.swift:252-255 | with dot-all the pattern recovers every prefix |
| EditorTreeView.StripCounterAcrossLines | editor/editor/ViewHierarchy/TreeView.swift:252-255 | without dot-all, the id of prefix `x--5\n` is stripped to `x\n` instead |
| EditorTreeView.PairsFor | editor/editor/ViewHierarchy/TreeView.swift:252-256 | the setter pairs every new id with the prefix the written pattern recovers, and builds no other pair |
| EditorTreeView.PairsForRoundTrip | editor/editor/ViewHierarchy/TreeView.swift:247-256 | reading the selection back after setting it gives the ids that were set, and an id built from a prefix without a line end is paired with that prefix |
| EditorTreeView.PairsForAcrossLines | editor/editor/ViewHierarchy/TreeView.swift:252-256 | selecting the id of prefix `x--5\n` pairs it with `x\n` only, not with its own prefix |
| EditorTreeView.IntendedPairsFor | editor/editor/ViewHierarchy/TreeView.swift:252-256 | the intended pairs: every new id with the prefix recovered with dot-all, and no other pair |
| EditorTreeView.IntendedPairsForRoundTrip | editor/editor/ViewHierarchy/TreeView.swift:247-256 | with the intended pairs the selection reads back as set and every id built from a prefix is paired with that prefix |
| EditorTreeView.TreeViewContainer.constructor | editor/editor/ViewHierarchy/TreeView.swift:183 | the item cache starts empty |
| EditorTreeView.TreeViewContainer.ConvertTreeToTreeItem | editor/editor/ViewHierarchy/TreeView.swift:185-200 | a cached item is returned as it is; on a miss the root is converted and cached; a tree without a root traps |
| EditorTreeView.TreeViewContainer.SetSelection | editor/editor/ViewHierarchy/TreeView.swift:251-268 | the pairs built with the written pattern go to every client with the packet's tree, are stored in the packet and are passed to the delegates |
| EditorTreeView.SendToEveryClient | editor/editor/ViewHierarchy/TreeView.swift:258-260 | the outbox grows by one message per client, keeps its earlier messages, and the new messages are exactly the payload to each client |
| LegacyTreeView.FirstChain | editor/ViewHierarchy/TreeView.swift:32-44 | the chain below an item is empty exactly when it has no children |
| LegacyTreeView.FirstChainSelectedIff | editor/ViewHierarchy/TreeView.swift:32-44 | the written test holds exactly when some node of the first-child chain is selected |
| LegacyTreeView.FirstChainSelectedSound | editor/ViewHierarchy/TreeView.swift:32-44 | whatever the written test finds, the full descendant test finds too |
| LegacyTreeView.FirstChainMissesSecondChild | editor/ViewHierarchy/TreeView.swift:32-44 | a selected second child goes unnoticed: the written test is false where the full test is true |
| LegacyTreeView.TreeNode.constructor | editor/ViewHierarchy/TreeView.swift:22-29 | a node keeps its item and the two shared selections |
| LegacyTreeView.TreeNode.IsDescendantSelected | editor/ViewHierarchy/TreeView.swift:32-44 | the loop, with its early returns, computes the first-chain test |
| LegacyTreeView.TreeNode.ToggleExpanded | editor/ViewHierarchy/TreeView.swift:46-64 | the chevron removes the id when the node shows as expanded and adds it otherwise; a node above a first-chain selection stays expanded |
| LegacyTreeView.TreeNode.ToggleSelected | editor/ViewHierarchy/TreeView.swift:66-72 | a tap flips the selection of this node's id and of no other id |
| LegacyEditor.WebSocketServer.constructor | editor/EditorView.swift:17-39 | a new server has no connection, no tree, no selection and has sent nothing |
| LegacyEditor.WebSocketServer.HandleNewConnection | editor/EditorView.swift:46-53 | the new connection replaces whichever one was stored, under the server's one client id |
| LegacyEditor.WebSocketServer.ReceiveMessage | editor/EditorView.swift:55-79 | an error drops the connection and stops listening; a decoded message replaces the tree and the selection and keeps listening; empty data changes nothing and keeps listening; undecodable data changes nothing and stops listening |
| LegacyEditor.WebSocketServer.SendSelectedIds | editor/EditorView.swift:81-90 | the ids are sent on the stored connection, and nothing is sent without one |
| LegacyEditor.WebSocketServer.SelectionChanged | editor/EditorView.swift:472-477 | the panel's new selection is stored and sent to the connected client |
| LegacyEditor.AtMostOneClient | editor/EditorView.swift:19-23 | since every connection is stored under one id, there is at most one |
| LegacyEditor.First | editor/EditorView.swift:352 | `Set.first` gives an element exactly when the set is not empty |
| LegacyEditor.FirstContainer | editor/EditorView.swift:348-350 | the first associater with the container id, or none when no associater has it |
| LegacyEditor.Joined | editor/EditorView.swift:343-363 | every selected view of every animation associater gives one animation, hosted by the first container associater for its container or by the body |
| LegacyEditor.HostIsAttached | editor/EditorView.swift:352-357 | a host is the body or a view of an associater for that container |
| LegacyEditor.FirstSchema | editor/EditorView.swift:366 | the first schema with the id, or none when no schema has it |
| LegacyEditor.SecondLookupFindsSame | editor/EditorView.swift:366-372 | the second lookup, by the found schema's own id, finds the same schema, so its guard never fails |
| LegacyEditor.PlaybackArgs | editor/EditorView.swift:365-381 | each animation whose container is a schema gives one wrapper with that schema, the view, its host and the animation id; the others are dropped |
| LegacyEditor.AllObjects | editor/EditorView.swift:645 | the objects of every schema, and only those |
| LegacyEditor.FirstObject | editor/EditorView.swift:650 | the first object with the id, or none when no object has it |
| LegacyEditor.EditorModel.constructor | editor/EditorView.swift:129-132 | the model starts with no associaters |
| LegacyEditor.EditorModel.Attach | editor/EditorView.swift:643-653 | a schema id adds a container associater for the selection; an object id adds a body container and an animation associater; any other id changes nothing |
| LegacyEditor.AttachedObjectPlays | editor/EditorView.swift:343-363 | after attaching an object, playback gives an animation for every selected view, hosted by the body |
| LegacyEditor.LessEqTotal | editor/EditorView.swift:433 | the string order compares any two names |
| LegacyEditor.Insert | editor/EditorView.swift:433 | insertion keeps the list sorted and adds exactly one copy of the name |
| LegacyEditor.Sort | editor/EditorView.swift:433 | `sorted()` yields an ascending permutation |
| LegacyEditor.ObjectIds | editor/EditorView.swift:431-432 | the ids of a schema's objects, in their order |
| LegacyEditor.LastIndex | editor/EditorView.swift:430-431 | the last schema with the id, or none when no schema has it |
| LegacyEditor.AvailableContentsLastWins | editor/EditorView.swift:428-437 | the keys are exactly the schema ids, and the entry for an id is the sorted object ids of the last schema with that id |
| LegacyEditor.AvailableContentsSorted | editor/EditorView.swift:428-437 | the entry of the last schema with an id is sorted and holds exactly that schema's object ids |
| LegacyEditor.AnimationsAvailableContents | editor/EditorView.swift:428-437 | the loop builds the map the specification function describes |
| LegacyEditor.ConvertNodeToTreeItem | editor/EditorView.swift:459-466 | the item keeps the node's ordered id tree, names each item by its id, and leaves the children out exactly when there are none |
| LegacyEditor.ConvertNodeAgrees | editor/EditorView.swift:459-466 | the earlier and the current editor convert every node to the same item |
| LegacyEditor.ConvertTreeToTreeItem | editor/EditorView.swift:454-457 | no item exactly when the tree has no root; otherwise the converted root |
| LegacyEditor.TransformFrom | editor/EditorView.swift:439-448 | a list that starts nil stays nil; one that starts empty collects the converted children |
| LegacyEditor.TransformTreeToTreeItems | editor/EditorView.swift:439-448 | as written, the item always has no children |
| LegacyEditor.TransformTreeToTreeItemsFromEmpty | editor/EditorView.swift:439-448 | starting from an empty list, the item keeps the node's ordered id tree |
| LegacyEditor.TransformLosesChildren | editor/EditorView.swift:439-448 | a node with children loses them in the written transform, while the converter keeps them |
| SetupFlow.Forward | editor/SetupFlow/SetupFlow.swift:46-62 | `back` and the complete screen have no forward transition, and no forward transition stays in place |
| SetupFlow.ForwardTable | editor/SetupFlow/SetupFlow.swift:46-62 | exactly seven screen/event pairs have forward transitions |
| SetupFlow.StepOutcomes | editor/SetupFlow/SetupFlow.swift:45-95 | the machine traps exactly on an event other than `back` with no table entry; `back` pops the history when there is one, and does nothing otherwise; a forward step pushes the current screen |
| SetupFlow.ForwardThenBack | editor/SetupFlow/SetupFlow.swift:82-95 | a forward step followed by `back` returns to the state before |
| SetupFlow.CompleteOnlyGoesBack | editor/SetupFlow/SetupFlow.swift:86-88 | every event on the complete screen other than `back` traps |
| SetupFlow.StartIsWalk | editor/SetupFlow/SetupFlow.swift:42-43 | the initial configuration, the start screen with no history, is a path through the table |
| SetupFlow.StepKeepsWalk | editor/SetupFlow/SetupFlow.swift:45-95 | every successful step keeps the history and the current screen a path through the table |
| SetupFlow.WalkHistoryAvoidsComplete | editor/SetupFlow/SetupFlow.swift:45-95 | the complete screen is never on the history |
| SetupFlow.SetupFlowStateMachine.constructor | editor/SetupFlow/SetupFlow.swift:42-43 | the machine starts on the start screen with no history |
| SetupFlow.SetupFlowStateMachine.Transition | editor/SetupFlow/SetupFlow.swift:92-95 | the current screen is pushed and the new one shown |
| SetupFlow.SetupFlowStateMachine.HandleEvent | editor/SetupFlow/SetupFlow.swift:45-90 | the state moves by one step of the table; a trap leaves it unchanged |
| ServerManager.SchemaSends | editor/editor/Managers/WebSocketServerManager.swift:43-45 | one schema message per visited client, in visiting order |
| ServerManager.WebSocketServerManager.constructor | editor/editor/Managers/WebSocketServerManager.swift:15 | the manager starts with no servers |
| ServerManager.WebSocketServerManager.StartServer | editor/editor/Managers/WebSocketServerManager.swift:17-36 | a framework that has a server keeps it and nothing traps; otherwise the call traps exactly when the port is outside 0...65535 (`UInt16(port)`), and then nothing is registered; a failed construction adds nothing; otherwise a fresh, empty server on that port is registered for that framework only |
| ServerManager.WebSocketServerManager.SendSchema | editor/editor/Managers/WebSocketServerManager.swift:38-52 | no server fails with `serverNil`; otherwise the ready clients visited each get the schemas and nothing else changes; the send succeeds with 1 exactly when every client is ready and visited, and fails with `serverNil` otherwise |
| ServerManager.SendToClients | editor/editor/Managers/WebSocketServerManager.swift:43-49 | the clients are visited once each, every ready one visited gets the schemas in visiting order, and the loop completes exactly when every client is ready, having visited them all |
| PlaybackManager.WrapperFor | editor/editor/Managers/PlaybackManager.swift:38-48 | the wrapper carries the schema, its key, the "animation" container and the schema's id |
| PlaybackManager.SchemaWrappers | editor/editor/Managers/PlaybackManager.swift:37-49 | one wrapper per visited key, in order |
| PlaybackManager.OneWrapperPerEntry | editor/editor/Managers/PlaybackManager.swift:37-49 | visiting every key once gives exactly one wrapper per entry |
| PlaybackManager.EditorModel.constructor | editor/editor/EditorView.swift:21-23 | the model starts with no animations |
| PlaybackManager.PlaybackManager.constructor | editor/editor/Managers/PlaybackManager.swift:15-28 | the manager keeps its collaborators and framework; it is not playing and has no keyframes and a zero playhead |
| PlaybackManager.PlaybackManager.UpdateFramework | editor/editor/Managers/PlaybackManager.swift:30-32 | only the framework changes |
| PlaybackManager.PlaybackManager.RunInvokePlayback | editor/editor/Managers/PlaybackManager.swift:34-60 | one wrapper per animation entry is sent; the result is true exactly when the framework has a server whose clients are all ready, and then every client got the wrappers |
| KeyframeHandler.FirstIndex | editor/editor/Managers/KeyframeHandler.swift:60-62 | the first position of a schema with the id, or none when no schema has it |
| KeyframeHandler.UpsertEffect | editor/editor/Managers/KeyframeHandler.swift:52-68 | one turn writes the id's schema at its first index (appending it and adding it to the editor model when absent) and leaves other ids' first indices and schemas in place |
| KeyframeHandler.FirstIndexIs | editor/editor/Managers/KeyframeHandler.swift:60-62 | the first index is the position of the first match |
| KeyframeHandler.FirstIndexNone | editor/editor/Managers/KeyframeHandler.swift:60-62 | with no match there is no first index |
| KeyframeHandler.FirstIndexUnmoved | editor/editor/Managers/KeyframeHandler.swift:60-66 | writes confined to one id's schemas, or appended after the end, leave every other id's first index in place |
| KeyframeHandler.UpsertAllPlaces | editor/editor/Managers/KeyframeHandler.swift:52-68 | after the loop every id of the message has its new schema at its first index, other ids' first indices are unchanged, and at most one schema per id was added |
| KeyframeHandler.UpsertAllKeeps | editor/editor/Managers/KeyframeHandler.swift:52-68 | a schema whose id is not in the message stays where it was, and every appended schema is for an id of the message that had none |
| KeyframeHandler.UpsertAllModel | editor/editor/Managers/KeyframeHandler.swift:52-68 | the editor model gains exactly the ids of the message that had no schema, each with its new schema, and keeps every other entry |
| KeyframeHandler.KeyframeHandler.constructor | editor/editor/Managers/KeyframeHandler.swift:18-22 | the handler keeps its model, manager and bound schemas |
| KeyframeHandler.KeyframeHandler.CreateKeyframe | editor/editor/Managers/KeyframeHandler.swift:24-69 | a keyframe with the message's translation and the playhead interval is appended, the previous playhead moves up, and every view of the message is upserted (driven by the loop over its ids) |
| WebRender.Synced | editor/editor/WebRenderView.swift:79-85 | after a bus message the id is selected exactly when the message says so; other ids are unchanged |
| WebRender.SyncedIdempotent | editor/editor/WebRenderView.swift:79-85 | the same message twice is the same as once |
| WebRender.SyncedLastWins | editor/editor/WebRenderView.swift:79-85 | of two messages about one id, the last decides |
| WebRender.SelectedActionableIDTracker.constructor | editor/EditorView.swift:123-126 | the tracker starts with no selection |
| WebRender.Updated | editor/editor/WebRenderView.swift:31-41 | a new url is recorded and a load requested; the recorded url changes nothing |
| WebRender.UpdatedTwice | editor/editor/WebRenderView.swift:31-41 | a second update with the same url does nothing |
| WebRender.Coordinator.constructor | editor/editor/WebRenderView.swift:50-57 | the coordinator keeps its tracker and has no url and has requested no load |
| WebRender.Coordinator.UserContentController | editor/editor/WebRenderView.swift:63-87 | a decoded message on the bus handler syncs the selection; any other message leaves it as it was |
| WebRender.Coordinator.UpdateNSView | editor/editor/WebRenderView.swift:31-41 | the navigation state moves by one update |
| Canvas.TriangleVertices | runtime-swift/Inertia/Sources/Inertia/VibeShapes.swift:16-31 | three vertices, one per corner, of side `width` and the object's colour, centred at the position scaled by the size |
| Canvas.MaxZIndex | runtime-swift/Inertia/Sources/Inertia/VibeCanvas.swift:40-42 | the highest z-index of the objects, 0 when there are none |
| Canvas.TopObjects | runtime-swift/Inertia/Sources/Inertia/VibeCanvas.swift:38-55 | the drawn objects are exactly the triangle shapes at the top z-index |
| Canvas.TopVerticesInSchemaOrder | runtime-swift/Inertia/Sources/Inertia/VibeCanvas.swift:38-55 | the drawn objects add their three vertices each, in schema order |
| Canvas.TopVerticesMembers | runtime-swift/Inertia/Sources/Inertia/VibeCanvas.swift:38-55 | a vertex is drawn exactly when it is a corner of a drawn object |
| Canvas.TopVerticesMembersOf | runtime-swift/Inertia/Sources/Inertia/VibeCanvas.swift:38-55 | for any top z-index, a vertex is drawn exactly when it is a corner of a triangle at that index |
| Canvas.DrawnObjectsAreOnTop | runtime-swift/Inertia/Sources/Inertia/VibeCanvas.swift:40-44 | no object lies above a drawn one |
| Canvas.AnimationAboveHidesTriangle | runtime-swift/Inertia/Sources/Inertia/VibeCanvas.swift:39-44 | an animation object above the only triangle hides it, since the top is taken over every object |
| Canvas.TopVerticesOfAppend | runtime-swift/Inertia/Sources/Inertia/VibeCanvas.swift:38-55 | the vertices of two lists of objects are the vertices of each, concatenated |
| Canvas.BuildTopVertices | runtime-swift/Inertia/Sources/Inertia/VibeCanvas.swift:31-55 | the loop builds the top-layer vertex list, three per drawn object |
| Canvas.InsertDistinct | runtime-swift/Inertia/Sources/Inertia/VibeCanvas.swift:241 | inserting keeps the list strictly ascending and adds only the new value |
| Canvas.SortedDistinct | runtime-swift/Inertia/Sources/Inertia/VibeCanvas.swift:241 | each value of the list exactly once, ascending |
| Canvas.AscendingUnique | runtime-swift/Inertia/Sources/Vibe/VibeCanvas.swift:124-126 | two ascending lists with the same elements are equal, so the visiting order does not matter |
| Canvas.ZIndices | runtime-swift/Inertia/Sources/Inertia/VibeCanvas.swift:241 | the objects' z-indices, in their order |
| Canvas.VertexRenderer.constructor | runtime-swift/Inertia/Sources/Inertia/VibeCanvas.swift:57-64 | the renderer holds the vertex list given |
| Canvas.Coordinator.constructor | runtime-swift/Inertia/Sources/Inertia/VibeCanvas.swift:232-234 | a coordinator starts with no renderer |
| InertiaCanvas.InertiaCanvas.constructor | runtime-swift/Inertia/Sources/Inertia/VibeCanvas.swift:16-18 | the canvas keeps the environment's data model |
| InertiaCanvas.InertiaCanvas.MakeNSView | runtime-swift/Inertia/Sources/Inertia/VibeCanvas.swift:22-87 | without a data model nothing is installed; otherwise a fresh renderer of the top-layer vertices is given to the coordinator |
| InertiaCanvas.InertiaCanvas.UpdateNSView | runtime-swift/Inertia/Sources/Inertia/VibeCanvas.swift:89-118 | with a data model the renderer gets the rebuilt vertex list; without one it keeps its old list |
| InertiaCanvas.InertiaCanvas.CollateZIndices | runtime-swift/Inertia/Sources/Inertia/VibeCanvas.swift:236-242 | the distinct z-indices of the objects, ascending; none without a data model |
| VibeCanvas.ValuesIn | runtime-swift/Inertia/Sources/Vibe/VibeCanvas.swift:45 | the dictionary's values in the given key order |
| VibeCanvas.MaxZIndexIsTop | runtime-swift/Inertia/Sources/Vibe/VibeCanvas.swift:47-49 | in any visiting order, the maximum is the dictionary's top z-index |
| VibeCanvas.TopZIndex | runtime-swift/Inertia/Sources/Vibe/VibeCanvas.swift:47-49 | the highest z-index in the dictionary, attained, or 0 when it is empty |
| VibeCanvas.Keys | runtime-swift/Inertia/Sources/Vibe/VibeCanvas.swift:45 | an enumeration of the dictionary's keys, each once |
| VibeCanvas.PickKey | runtime-swift/Inertia/Sources/Vibe/VibeCanvas.swift:45 | some key of a non-empty dictionary |
| VibeCanvas.RemoveOne | runtime-swift/Inertia/Sources/Vibe/VibeCanvas.swift:44-63 | removing one object from the visiting order removes its contribution, and only that |
| VibeCanvas.EnumerationBag | runtime-swift/Inertia/Sources/Vibe/VibeCanvas.swift:44-63 | every visiting order of the dictionary draws the same multiset of vertices |
| VibeCanvas.EnumerationTop | runtime-swift/Inertia/Sources/Vibe/VibeCanvas.swift:44-63 | every visiting order of the dictionary finds the dictionary's own top z-index |
| VibeCanvas.EnumerationMembers | runtime-swift/Inertia/Sources/Vibe/VibeCanvas.swift:44-63 | in every visiting order a vertex is drawn exactly when it is a corner of a top triangle of the dictionary |
| VibeCanvas.RemoveKey | runtime-swift/Inertia/Sources/Vibe/VibeCanvas.swift:45 | dropping a key from an enumeration enumerates the rest, in the same order |
| VibeCanvas.RemoveKeyEnumerates | runtime-swift/Inertia/Sources/Vibe/VibeCanvas.swift:45 | dropping a key from an enumeration of the dictionary enumerates the dictionary without that key, each key once |
| VibeCanvas.DataModel.constructor | runtime-swift/Inertia/Sources/Vibe/VibeCanvas.swift:124-126 | the data model holds the object dictionary given |
| VibeCanvas.BuildTopVerticesOfValues | runtime-swift/Inertia/Sources/Vibe/VibeCanvas.swift:44-63 | whatever the visiting order, the vertices drawn are the top triangles' corners, as a multiset |
| VibeCanvas.VibeCanvas.constructor | runtime-swift/Inertia/Sources/Vibe/VibeCanvas.swift:20-29 | the canvas keeps the view model's data model |
| VibeCanvas.VibeCanvas.MakeUIView | runtime-swift/Inertia/Sources/Vibe/VibeCanvas.swift:35-95 | a fresh renderer of the top-layer vertices is given to the coordinator |
| VibeCanvas.VibeCanvas.UpdateUIView | runtime-swift/Inertia/Sources/Vibe/VibeCanvas.swift:97-122 | the coordinator's renderer, if any, gets the rebuilt vertex list |
| VibeCanvas.VibeCanvas.CollateZIndices | runtime-swift/Inertia/Sources/Vibe/VibeCanvas.swift:124-126 | the distinct z-indices of the dictionary's values, ascending |
| Preprocessor.InTreeNodesExtends | preprocessor-swift/compile-time/Sources/main.swift:106-107 | every URL the enumerator reaches lies strictly below the directory |
| Preprocessor.InTreeNodeExtends | preprocessor-swift/compile-time/Sources/main.swift:106-107 | every URL reached through an entry lies at or below that entry |
| Preprocessor.CollectNodesMembers | preprocessor-swift/compile-time/Sources/main.swift:102-123 | a URL is collected exactly when the enumerator reaches it, it has the "swift" extension, and neither it nor a directory above it is skipped |
| Preprocessor.CollectNodeMembers | preprocessor-swift/compile-time/Sources/main.swift:102-123 | the same, for the URLs under one entry |
| Preprocessor.AllowedComponents | preprocessor-swift/compile-time/Sources/main.swift:111 | a URL is allowed exactly when no component below the root is "build" or "Pods" and no component at all starts with "build" without being "build" |
| Preprocessor.BuildPrefixedRootCollectsNothing | preprocessor-swift/compile-time/Sources/main.swift:111 | a root with a component such as "builds" in its own path yields no files |
| Preprocessor.CollectStackPop | preprocessor-swift/compile-time/Sources/main.swift:107-114 | visiting the next entry of the walk keeps the files still to come in enumeration order |
| Preprocessor.StepWeight | preprocessor-swift/compile-time/Sources/main.swift:107-114 | each step of the walk makes the pending work smaller, so the enumeration ends |
| Preprocessor.EnumerateNext | preprocessor-swift/compile-time/Sources/main.swift:107-119 | one step of the enumerator reports what the walk owes for the visited entry and leaves the rest still owed, with less work pending |
| Preprocessor.SkipStep | preprocessor-swift/compile-time/Sources/main.swift:111-113 | a hidden or skipped entry contributes nothing and its descendants are not visited |
| Preprocessor.VisitStep | preprocessor-swift/compile-time/Sources/main.swift:117-119 | any other entry is reported when it is a Swift file and its descendants come next, before its later siblings |
| Preprocessor.FindSwiftFiles | preprocessor-swift/compile-time/Sources/main.swift:102-123 | the loop collects the enumerator's Swift files in visiting order, and exactly the allowed ones |
| Preprocessor.InsertionIndexUnique | preprocessor-swift/compile-time/Sources/main.swift:158-169 | the insertion point is fixed by the lines |
| Preprocessor.ScanImport | preprocessor-swift/compile-time/Sources/main.swift:163-164 | an import line moves the insertion point to just past it, and the scan goes on |
| Preprocessor.ScanSkip | preprocessor-swift/compile-time/Sources/main.swift:162-167 | a comment or an empty line is passed over without moving the insertion point |
| Preprocessor.ScanStop | preprocessor-swift/compile-time/Sources/main.swift:165-166 | the first line that is neither import, comment nor empty fixes the insertion point found so far |
| Preprocessor.InsertionIndex | preprocessor-swift/compile-time/Sources/main.swift:158-169 | the scan returns the insertion point: after the last import of the header, before the first line that is neither import, empty, nor a `//` comment once trimmed of whitespace (tab and the Unicode space separators) |
| Preprocessor.ContainsAfter | preprocessor-swift/compile-time/Sources/main.swift:156 | a substring stays one after text is put in front |
| Preprocessor.ContainsBefore | preprocessor-swift/compile-time/Sources/main.swift:156 | a substring stays one after text is put behind |
| Preprocessor.ContainsJoined | preprocessor-swift/compile-time/Sources/main.swift:172 | each joined line is a substring of the result |
| Preprocessor.AppendImport | preprocessor-swift/compile-time/Sources/main.swift:156-173 | a file mentioning `import Inertia` is returned unchanged; otherwise the import line goes in at the insertion point and every other line keeps its text and order; the result always mentions it, so a second run changes nothing |
| VmSizing.Clamp | editor/LinuxVMInstaller.swift:159-160 | the value clamped by `max` with the lower bound, then `min` with the upper |
| VmSizing.ComputeCPUCount | editor/LinuxVMInstaller.swift:156-162 | never above the upper bound, never below the lower one when the bounds are ordered; one less than the processor count when that is in bounds; one for a single processor |
| VmSizing.ComputeMemorySize | editor/LinuxVMInstaller.swift:164-170 | within the bounds, four gibibytes when that is in bounds |
| VmSizing.CPUCountMonotone | editor/LinuxVMInstaller.swift:156-162 | more processors never give fewer virtual ones |
| VmSizing.CPUCountLeavesOne | editor/LinuxVMInstaller.swift:156-162 | a multi-processor host keeps a processor for itself unless the lower bound forces otherwise |

## Left out

- Encoding a live tree whose children lead back to a node (which `addRelationship(x, x)` creates, see `SelfParentHasNoRank` in InertiaTree, VibeBaseTree and ComposeTree) never finishes in the source. The encoders of the live trees (`VibeBaseTree.Unfold`, `ComposeTree.Unfold`) are defined only on acyclic trees, those with a `Ranked` rank; the divergence itself is not modelled. The Swift trees are encoded by `JSONEncoder`, so only their acyclicity is stated.
- Sockets and transport: the listeners, connections and their callbacks (NWListener/NWConnection, the runtimes' WebSocket clients, `VibeWebSocket`, the Kotlin client) are async I/O. Only the routing decisions taken on a decoded message are modelled. A send is recorded as an entry of an `outbox` sequence. The runtimes' `connect(uri:)` to `ws://<host>:8060` is not modelled: a message handed to `sendMessage`/`sendData` is recorded even when the client's task was never created, in which case the source's `task?.send` drops it.
- `server.start()`, `connection.start` and `cancel` are I/O. A reset is modelled by the connections it drops.
- Encoding and decoding by library code (Codable, `JSONEncoder`/`JSONDecoder`, kotlinx.serialization, `JSON.parse`/`JSON.stringify`, Base64) is foreign. A decoded message is an input value, and a failed decode is a case of that input.
- The legacy editor's JavaScript bridge (`executeVibeWebScript`, `executeVibeWebFunction`) runs script in a web view. Its playback join is modelled up to the set of wrappers it would encode.
- The web view's load is recorded as a requested url in `Navigation.loads`. The cache clearing and the completion handler around it are not modelled.
- The `DispatchQueue.main.async` write to the tree-item cache happens later in the source. The model applies it at once.
- Threads, `@MainActor` and coroutine scheduling are not modelled. Every handler runs to completion before the next one starts.
- ICU's `\d` in the counter-stripping pattern also matches non-ASCII decimal digits. The model matches ASCII digits only; the ids it strips are built from ASCII decimals.
- Swift `String` comparison (`sorted()`) is Unicode-canonical. The model orders strings lexicographically by character.
- `Set.first` and the iteration order of Swift sets and dictionaries are unspecified in the source. The model picks an arbitrary but fixed element or order (a ghost choice, `Sets.Enumerate`), and the contracts hold for every such choice.
- The `lookupId` that `updateTreePackets` takes from a set with `first(where:)` is any element meeting the source's condition, for the same reason. The merge records the choice per packet as `chosen`, and `Updated` holds for whatever was chosen.
- Floating-point values are `real` and are only copied and compared. Keyframe durations are subtractions of reals, with no rounding.
- The keyframe id comes from `UUID()`. It is a parameter of `CreateKeyframe`.
- `TreePacket` is a class in the source. Packets are compared by value here, which is what the merge's overwrite-by-index relies on.
- The host's processor count and the virtualization framework's CPU and memory bounds are parameters. The virtual machine's configuration, its installers and its views are not part of this model.
- `computeMemorySize` works on `UInt64`. The model uses `nat`: 4 GiB and the framework's bounds fit in 64 bits, so no wrap-around occurs.
- `TriangleNode` vertex positions involve `sqrt(3)`. A vertex is kept symbolic as its corner, centre, side and colour.
- `VertexRenderer`'s Metal work (normalisation, command buffers, drawing) is not modelled.
- Building a `CGColor` from `color[0..3]` traps when an object has fewer than four colour components. This trap is not modelled: the triangle carries the colour sequence as it is.
- `pathExtension == "swift"` is modelled as a name that ends in ".swift" after at least one other character. As in the source, a directory named that way is collected too.
- The SwiftSyntax `ViewHierarchyRewriter`, which rewrites `body` before the import step, is foreign parsing. The import step works on the rewritten text, which is an input.
- The preprocessor's file read and write and its command line are I/O.
- `VibeViewModel` is not part of this model. The Vibe canvas reads its object dictionary through `VibeCanvas.DataModel`.
- The newer editor's SwiftUI views (EditorView, EditorViewModel, the setup screens, timelines) are UI. Of editor/editor/EditorView.swift only `EditorModel` is modelled.
- In the legacy panel, the `onChange` observer that sends the selection fires on every change of the bound set, including a change a received message makes. The model sends only on the panel's own writes (`SelectionChanged`).
- VibeReactHooks.MapObjectValues: JavaScript's `Object.values` on a `Map` is modelled by its result on a `Map`, which is empty, and not by the property enumeration behind it.
- Rendering of the runtimes' components (React, SwiftUI, Compose), React's effect scheduling and the animation players are UI. Only the guards, registrations and handlers are modelled. Of the effect scheduling, only the order of a `Vibeable`'s first-commit effects is modelled (`MountEffects`).
- VibeReactHooks.MountEffects: the animation effect declared before the registration effect is not modelled. When the canvas size and the data model are present, its `init` calls `updateHierarchyId` again once the data model's `init` resolves, which draws a second id from the counter. React's development-mode second run of effects is not modelled either.
- VibeReactHooks.MountEffects: the shared counter is a map that starts empty. In the source `indexMap` is a plain-object `Record`, so a `hierarchyIdPrefix` that names an `Object.prototype` member reads the inherited value: "__proto__" gives "__proto__--[object Object]" on every call, because the write back to `__proto__` is ignored, and "constructor" gives "constructor--function Object() { [native code] }". The model's ids are those for prefixes that name no such member.
- InertiaReact.Inertiaable.AssignHierarchyId: the same holds for inertia-react's `indexMap` (runtime-web/inertia-react/src/index.tsx:142, 595-598): the model's counter map does not show the inherited values that "__proto__", "constructor" and the other `Object.prototype` names read.
- VibeBaseTree.DecodedTree: `if (json.rootNode)` is a truthiness test, and the model tests for `null` or `undefined` only. So for a falsy root value that is not an object (`false`, `0`, `""`) the model rejects the tree, where the source keeps the tree without a root.
- VibeReact.SetFromJs: `new Set(v)` of a string iterates its characters. The model gives `None` for every value that is neither nullish nor an array of strings, a string included.
- The Python file server is a wrapper over `http.server` and is not part of this model.
- Floating-point animation arithmetic is not part of this model: value interpolation, drag thresholds, timeline snapping and `maxCGSize`.
- `getHostForWebSocket`'s process execution and `getFirstDnsIP`'s reflection are foreign calls. The resolv.conf contents are a parameter.

## Findings

| source | as written | input that shows it | evidently intended | confidence | as-written member | corrected member |
|---|---|---|---|---|---|---|
| runtime-web/vibe-base/src/index.ts:145 | `invokeType === VibeAnimationInvokeType.trigger` compares with the number 0, since the TypeScript enum is numeric, while the schemas carry the string raw value of Swift's `VibeAnimationInvokeType` (Vibe.swift) and of vibe-react's string enum; so no object gets `trigger` false | an object whose animation has `invokeType` "trigger" | `trigger` false for every trigger animation, null for the others | not executed | VibeBaseModel.StateFor, VibeBaseModel.StringInvokeTypeGetsNoTrigger | VibeBaseModel.IntendedStateFor, VibeBaseModel.IntendedStateForTrigger |
| web/vibe-base/src/index.ts:138 | the same numeric comparison in the older data model, on both of its paths (lines 138 and 168) | an object whose animation has `invokeType` "trigger" | `trigger` false for every trigger animation | not executed | WebVibeBase.InitialStates, VibeBaseModel.StringInvokeTypeGetsNoTrigger | VibeBaseModel.IntendedStateFor, VibeBaseModel.IntendedStateForTrigger |
| runtime-web/vibe-react/src/index.tsx:791-799 | `hierarchyId` is a plain variable each render declares as `undefined`; the `[hierarchyId]` effect reads it before the next effect assigns it, and no render sees the assigned value, so the effect never runs with an id | any `Vibeable` mounted in a container | the view registered in the tree under its parent with its assigned id | not executed | VibeReactHooks.MountEffects | VibeReactHooks.IntendedMountEffects |
| runtime-web/vibe-react/src/index.tsx:801-812 | the link effect walks `Object.values(tree.nodeMap)`, and a `Map` has no enumerable own properties, so no node is linked | a tree with node "a" recording parent "p" and no parent link yet | every node of the map linked to its recorded parent | not executed | VibeReactHooks.LinkEffectAsWritten, VibeReactHooks.LinkEffectMissesLinks | VibeReactHooks.LinkEffect |
| editor/editor/WebSocketServer.swift:177-193 | an overlapping tree overwrites the slot named in the table for one of the packet's ids; a packet stored by an earlier overwrite has none of its ids in the table, so a later tree that overlaps it is neither merged nor appended | three trees: `t1` A→B, `t2` C→B (merged into slot 0), `t3` D→C | every tree with a root is kept: the overlapping packet is replaced at its own index | not executed | EditorServer.Server.HandleMessage, EditorServer.ThirdMessageLost | EditorServer.Server.UpdateTreePacketsByIndex, EditorServer.UpdatedByIndexRecords |
| editor/editor/ViewHierarchy/TreeView.swift:253-254 | the pattern `--\d+(?!.*--\d+)` is compiled without dot-all, so the lookahead cannot see past a line end, and a prefix with `--<digits>` before a line break loses the wrong counter | prefix `x--5\n` with counter 0, that is id `x--5\n--0`, is stripped to `x\n` | the last `--<digits>` of the id is stripped, recovering the prefix of any id | not executed | EditorTreeView.StripCounterAcrossLines, EditorTreeView.PairsForAcrossLines | EditorTreeView.StripCounterDotAllRoundTrip, EditorTreeView.IntendedPairsForRoundTrip |
| editor/ViewHierarchy/TreeView.swift:32-44 | the descendant test returns from inside its loop on the first child, so it only walks the chain of first children | item 0 with children 1 and 3, selected {"3"} | true when any descendant is selected | not executed | LegacyTreeView.FirstChainMissesSecondChild | EditorTreeView.DescendantSelectedIff |
| editor/EditorView.swift:439-448 | `childrenOut` starts as `nil`, and `childrenOut?.append` does nothing on `nil`, so every item loses its children; the function has no caller besides its own recursion, so the loss is never seen | any node with a child | the children converted in order | not executed; unreachable from the rest of the editor | LegacyEditor.TransformTreeToTreeItems, LegacyEditor.TransformLosesChildren | LegacyEditor.TransformTreeToTreeItemsFromEmpty |
