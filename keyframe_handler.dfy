/** Keyframe recording (editor/editor/Managers/KeyframeHandler.swift): a
    translation that ends a drag becomes a keyframe, and every dragged
    view's animation schema is rewritten with the full keyframe list. */
module KeyframeHandler {
  import opened Wrappers
  import opened Sets
  import opened Schema
  import opened EditorServer
  import opened PlaybackManager

  /** The schema written for one dragged view. */
  function SchemaFor(id: string, initialValues: AnimationValues, keyframes: seq<Keyframe>): AnimationSchema
  {
    AnimationSchema(id, initialValues, Auto, keyframes)
  }

  /** `firstIndex(where: { $0.id == id })`. The same search over
      containers is `LegacyEditor.FirstContainer`. */
  function FirstIndex(animations: seq<AnimationSchema>, id: string): (r: Option<nat>)
    ensures r.Some? ==> r.value < |animations| && animations[r.value].id == id &&
                        forall i :: 0 <= i < r.value ==> animations[i].id != id
    ensures r.None? ==> forall i :: 0 <= i < |animations| ==> animations[i].id != id
  {
    if animations == [] then None
    else if animations[0].id == id then Some(0)
    else match FirstIndex(animations[1..], id)
      case None => None
      case Some(j) => Some(j + 1)
  }

  /** The schemas and the editor model's animations. */
  datatype Written = Written(animations: seq<AnimationSchema>, model: map<string, AnimationSchema>)

  /** One turn of the loop: the first schema with the id is replaced in
      place; with none, the schema is appended and also written into the
      editor model. */
  function Upsert(w: Written, id: string, initialValues: AnimationValues, keyframes: seq<Keyframe>): Written
  {
    var schema := SchemaFor(id, initialValues, keyframes);
    match FirstIndex(w.animations, id)
    case Some(j) => Written(w.animations[j := schema], w.model)
    case None => Written(w.animations + [schema], w.model[id := schema])
  }

  /** The loop over the message's ids, in visiting order. */
  function UpsertAll(w: Written, ids: seq<string>, initialValues: AnimationValues, keyframes: seq<Keyframe>): Written
  {
    if ids == [] then w
    else Upsert(UpsertAll(w, ids[..|ids| - 1], initialValues, keyframes), ids[|ids| - 1], initialValues, keyframes)
  }

  /** One turn writes its own id's schema at the id's first index, and
      leaves every other id's first index and schema where they were. */
  lemma UpsertEffect(w: Written, id: string, initialValues: AnimationValues, keyframes: seq<Keyframe>)
    ensures var w' := Upsert(w, id, initialValues, keyframes);
      var schema := SchemaFor(id, initialValues, keyframes);
      |w.animations| <= |w'.animations| <= |w.animations| + 1 &&
      FirstIndex(w'.animations, id).Some? && w'.animations[FirstIndex(w'.animations, id).value] == schema &&
      (forall x :: x != id ==> FirstIndex(w'.animations, x) == FirstIndex(w.animations, x)) &&
      (forall j :: 0 <= j < |w.animations| && w.animations[j].id != id ==> w'.animations[j] == w.animations[j]) &&
      (forall j :: |w.animations| <= j < |w'.animations| ==> w'.animations[j] == schema) &&
      (FirstIndex(w.animations, id).Some? ==> w'.model == w.model) &&
      (FirstIndex(w.animations, id).None? ==> w'.model == w.model[id := schema])
  {
    var w' := Upsert(w, id, initialValues, keyframes);
    var f := FirstIndex(w.animations, id);
    if f.Some? {
      FirstIndexIs(w'.animations, id, f.value);
    } else {
      FirstIndexIs(w'.animations, id, |w.animations|);
    }
    forall x | x != id
      ensures FirstIndex(w'.animations, x) == FirstIndex(w.animations, x)
    {
      FirstIndexUnmoved(w.animations, w'.animations, id, x);
    }
  }

  /** `FirstIndex` is pinned down by the position of the first match. */
  lemma FirstIndexIs(a: seq<AnimationSchema>, x: string, j: int)
    requires 0 <= j < |a| && a[j].id == x && forall i :: 0 <= i < j ==> a[i].id != x
    ensures FirstIndex(a, x) == Some(j)
  {
  }

  lemma FirstIndexNone(a: seq<AnimationSchema>, x: string)
    requires forall i :: 0 <= i < |a| ==> a[i].id != x
    ensures FirstIndex(a, x) == None
  {
  }

  /** Writes confined to positions holding `id`'s schema, or appended after
      the end, with an `id` schema there, do not move any other id's first
      index. */
  lemma FirstIndexUnmoved(a: seq<AnimationSchema>, b: seq<AnimationSchema>, id: string, x: string)
    requires x != id && |a| <= |b|
    requires forall j :: 0 <= j < |a| ==> b[j] == a[j] || (a[j].id == id && b[j].id == id)
    requires forall j :: |a| <= j < |b| ==> b[j].id == id
    ensures FirstIndex(b, x) == FirstIndex(a, x)
  {
    var fa := FirstIndex(a, x);
    if fa.Some? {
      var j := fa.value;
      assert b[j] == a[j];
      forall i | 0 <= i < j
        ensures b[i].id != x
      {
        assert a[i].id != x;
      }
      FirstIndexIs(b, x, j);
    } else {
      forall i | 0 <= i < |b|
        ensures b[i].id != x
      {
        if i < |a| {
          assert a[i].id != x;
        }
      }
      FirstIndexNone(b, x);
    }
  }

  /** The whole loop, first indices: every id of the message ends with its
      schema at its first index, and every other id's first index stays. */
  lemma {:induction false} UpsertAllPlaces(w: Written, ids: seq<string>, initialValues: AnimationValues, keyframes: seq<Keyframe>)
    ensures var a := w.animations;
      var a' := UpsertAll(w, ids, initialValues, keyframes).animations;
      |a| <= |a'| <= |a| + |ids| &&
      (forall x :: x in ids ==> (FirstIndex(a', x).Some? &&
                   a'[FirstIndex(a', x).value] == SchemaFor(x, initialValues, keyframes))) &&
      (forall x :: x !in ids ==> FirstIndex(a', x) == FirstIndex(a, x))
  {
    if ids != [] {
      var front := ids[..|ids| - 1];
      var id := ids[|ids| - 1];
      var mid := UpsertAll(w, front, initialValues, keyframes);
      UpsertAllPlaces(w, front, initialValues, keyframes);
      UpsertEffect(mid, id, initialValues, keyframes);
      var a' := Upsert(mid, id, initialValues, keyframes).animations;
      assert UpsertAll(w, ids, initialValues, keyframes).animations == a';
      assert forall x :: x in ids <==> x in front || x == id;
      forall x | x in ids
        ensures FirstIndex(a', x).Some? && a'[FirstIndex(a', x).value] == SchemaFor(x, initialValues, keyframes)
      {
        if x != id {
          assert x in front;
          assert FirstIndex(a', x) == FirstIndex(mid.animations, x);
          assert a'[FirstIndex(a', x).value] == mid.animations[FirstIndex(a', x).value];
        }
      }
      forall x | x !in ids
        ensures FirstIndex(a', x) == FirstIndex(w.animations, x)
      {
        assert x !in front && x != id;
      }
    }
  }

  /** The whole loop, positions: a schema whose id is not in the message
      stays where it was, and every appended schema belongs to an id of
      the message that had none. */
  lemma {:induction false} UpsertAllKeeps(w: Written, ids: seq<string>, initialValues: AnimationValues, keyframes: seq<Keyframe>)
    ensures var a := w.animations;
      var a' := UpsertAll(w, ids, initialValues, keyframes).animations;
      |a| <= |a'| &&
      (forall j :: 0 <= j < |a| && a[j].id !in ids ==> a'[j] == a[j]) &&
      (forall j :: |a| <= j < |a'| ==> a'[j].id in ids && FirstIndex(a, a'[j].id).None?)
  {
    if ids != [] {
      var front := ids[..|ids| - 1];
      var id := ids[|ids| - 1];
      var mid := UpsertAll(w, front, initialValues, keyframes);
      UpsertAllKeeps(w, front, initialValues, keyframes);
      UpsertAllPlaces(w, front, initialValues, keyframes);
      UpsertEffect(mid, id, initialValues, keyframes);
      var a := w.animations;
      var a' := Upsert(mid, id, initialValues, keyframes).animations;
      assert forall x :: x in ids <==> x in front || x == id;
      forall j | |a| <= j < |a'|
        ensures a'[j].id in ids && FirstIndex(a, a'[j].id).None?
      {
        if j >= |mid.animations| {
          assert FirstIndex(mid.animations, id).None?;
          assert id !in front;
          assert FirstIndex(mid.animations, id) == FirstIndex(a, id);
        } else if mid.animations[j].id != id {
          assert a'[j] == mid.animations[j];
        }
      }
    }
  }

  /** The whole loop, editor model: exactly the ids of the message that had
      no schema are written, each with its new schema. */
  lemma {:induction false} UpsertAllModel(w: Written, ids: seq<string>, initialValues: AnimationValues, keyframes: seq<Keyframe>)
    ensures var m' := UpsertAll(w, ids, initialValues, keyframes).model;
      (forall x :: x in m' <==> x in w.model || (x in ids && FirstIndex(w.animations, x).None?)) &&
      (forall x :: x in m' ==>
                   m'[x] == if x in ids && FirstIndex(w.animations, x).None?
                            then SchemaFor(x, initialValues, keyframes) else w.model[x])
  {
    if ids != [] {
      var front := ids[..|ids| - 1];
      var id := ids[|ids| - 1];
      var mid := UpsertAll(w, front, initialValues, keyframes);
      UpsertAllModel(w, front, initialValues, keyframes);
      UpsertAllPlaces(w, front, initialValues, keyframes);
      var m' := Upsert(mid, id, initialValues, keyframes).model;
      var schema := SchemaFor(id, initialValues, keyframes);
      var isNew := id !in front && FirstIndex(w.animations, id).None?;
      if id in front {
        assert FirstIndex(mid.animations, id).Some?;
        assert m' == mid.model;
      } else {
        assert FirstIndex(mid.animations, id) == FirstIndex(w.animations, id);
        assert m' == if isNew then mid.model[id := schema] else mid.model;
      }
      assert UpsertAll(w, ids, initialValues, keyframes).model == m';
      forall x
        ensures x in m' <==> x in w.model || (x in ids && FirstIndex(w.animations, x).None?)
        ensures x in m' ==> m'[x] == if x in ids && FirstIndex(w.animations, x).None?
                                    then SchemaFor(x, initialValues, keyframes) else w.model[x]
      {
        if x == id {
          assert x in ids;
        } else {
          assert x in ids <==> x in front;
          assert (x in m') == (x in mid.model);
        }
      }
    }
  }

  class KeyframeHandler {
    const editorModel: EditorModel
    const playbackManager: PlaybackManager
    /** The bound animation schemas. */
    var animations: seq<AnimationSchema>

    constructor (editorModel: EditorModel, playbackManager: PlaybackManager, animations: seq<AnimationSchema>)
      ensures this.editorModel == editorModel && this.playbackManager == playbackManager
      ensures this.animations == animations
    {
      this.editorModel := editorModel;
      this.playbackManager := playbackManager;
      this.animations := animations;
    }

    /** `createKeyframe`: appends a keyframe (scale 1, opacity 1, no
        rotation, the message's translation) lasting from the previous
        playhead time to the current one, moves the previous time up, and
        upserts every dragged view's schema. `keyframeId` is the fresh UUID;
        `order` is the order the loop visits the message's ids in. */
    method CreateKeyframe(message: Translation, initialValues: Option<AnimationValues>, keyframeId: string)
      returns (ghost order: seq<string>)
      modifies this`animations, editorModel`animations, playbackManager`keyframes,
               playbackManager`previousPlayheadTime
      ensures playbackManager.keyframes == old(playbackManager.keyframes) + [Keyframe(keyframeId,
                AnimationValues(1.0, Size(message.translationX, message.translationY), 0.0, 0.0, 1.0),
                old(playbackManager.playheadTime) - old(playbackManager.previousPlayheadTime))]
      ensures playbackManager.previousPlayheadTime == playbackManager.playheadTime
      ensures forall x :: x in order <==> x in message.actionableIds
      ensures forall i, j :: 0 <= i < j < |order| ==> order[i] != order[j]
      ensures Written(animations, editorModel.animations) ==
              UpsertAll(Written(old(animations), old(editorModel.animations)), order,
                        initialValues.UnwrapOr(IdentityValues), playbackManager.keyframes)
    {
      var values := AnimationValues(1.0, Size(message.translationX, message.translationY), 0.0, 0.0, 1.0);
      var newKeyframe := Keyframe(keyframeId, values, playbackManager.playheadTime - playbackManager.previousPlayheadTime);
      playbackManager.previousPlayheadTime := playbackManager.playheadTime;
      playbackManager.keyframes := playbackManager.keyframes + [newKeyframe];
      var initial := initialValues.UnwrapOr(IdentityValues);
      var ids := Enumerate(message.actionableIds);
      order := ids;
      ghost var start := Written(animations, editorModel.animations);
      for i := 0 to |ids|
        invariant playbackManager.keyframes == old(playbackManager.keyframes) + [newKeyframe]
        invariant playbackManager.previousPlayheadTime == playbackManager.playheadTime
        invariant Written(animations, editorModel.animations) ==
                  UpsertAll(start, ids[..i], initial, playbackManager.keyframes)
      {
        var id := ids[i];
        assert ids[..i + 1][..i] == ids[..i];
        var animationSchema := AnimationSchema(id, initial, Auto, playbackManager.keyframes);
        var animationIndex := FirstIndex(animations, id);
        if animationIndex.Some? {
          animations := animations[animationIndex.value := animationSchema];
        } else {
          animations := animations + [animationSchema];
          editorModel.animations := editorModel.animations[id := animationSchema];
        }
      }
      assert ids[..|ids|] == ids;
    }
  }
}
