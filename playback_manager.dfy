/** The editor's playback state and its schema dispatch
    (editor/editor/Managers/PlaybackManager.swift), with the editor model
    whose animations it sends (editor/editor/EditorView.swift). */
module PlaybackManager {
  import opened Wrappers
  import opened Sets
  import opened Schema
  import opened EditorTypes
  import opened EditorServer
  import opened ServerManager

  /** The container id every playback wrapper is addressed to. */
  const PlaybackContainerId := "animation"

  /** The wrapper `runInvokePlayback` builds for one entry of the editor
      model's animations. */
  function WrapperFor(key: string, schema: AnimationSchema): (w: AnimationWrapper)
    ensures w.schema == schema && w.actionableId == key && w.animationId == schema.id
    ensures w.container == AnimationContainer(key, PlaybackContainerId)
  {
    AnimationWrapper(schema, key, AnimationContainer(key, PlaybackContainerId), schema.id)
  }

  /** The `compactMap` over the animations, visited in the order `keys`. */
  function SchemaWrappers(animations: map<string, AnimationSchema>, keys: seq<string>): (r: seq<AnimationWrapper>)
    requires forall i :: 0 <= i < |keys| ==> keys[i] in animations
    ensures |r| == |keys|
    ensures forall i :: 0 <= i < |r| ==> r[i] == WrapperFor(keys[i], animations[keys[i]])
  {
    seq(|keys|, i requires 0 <= i < |keys| => WrapperFor(keys[i], animations[keys[i]]))
  }

  /** Visiting every key once gives exactly one wrapper per entry, each
      addressed to its own key. */
  lemma OneWrapperPerEntry(animations: map<string, AnimationSchema>, keys: seq<string>)
    requires forall k :: k in keys <==> k in animations
    requires forall i, j :: 0 <= i < j < |keys| ==> keys[i] != keys[j]
    requires |keys| == |animations.Keys|
    ensures var r := SchemaWrappers(animations, keys);
      |r| == |animations| &&
      (forall w :: w in r <==> exists k :: k in animations && w == WrapperFor(k, animations[k])) &&
      (forall i, j :: 0 <= i < j < |r| ==> r[i].actionableId != r[j].actionableId)
  {
    var r := SchemaWrappers(animations, keys);
    forall w | w in r
      ensures exists k :: k in animations && w == WrapperFor(k, animations[k])
    {
      var i :| 0 <= i < |r| && r[i] == w;
      assert keys[i] in animations;
    }
    forall k | k in animations
      ensures WrapperFor(k, animations[k]) in r
    {
      var i :| 0 <= i < |keys| && keys[i] == k;
      assert r[i] == WrapperFor(k, animations[k]);
    }
  }

  /** The editor model: the animation schemas by actionable id. */
  class EditorModel {
    var animations: map<string, AnimationSchema>

    constructor ()
      ensures animations == map[]
    {
      animations := map[];
    }
  }

  class PlaybackManager {
    var isPlaying: bool
    var playheadTime: real
    var previousPlayheadTime: real
    var keyframes: seq<Keyframe>
    const editorModel: EditorModel
    const serverManager: WebSocketServerManager
    var framework: SetupFlowFramework

    constructor (editorModel: EditorModel, serverManager: WebSocketServerManager, framework: SetupFlowFramework)
      ensures this.editorModel == editorModel && this.serverManager == serverManager
      ensures this.framework == framework
      ensures !isPlaying && playheadTime == 0.0 && previousPlayheadTime == 0.0 && keyframes == []
    {
      this.editorModel := editorModel;
      this.serverManager := serverManager;
      this.framework := framework;
      isPlaying := false;
      playheadTime := 0.0;
      previousPlayheadTime := 0.0;
      keyframes := [];
    }

    /** `updateFramework`: the target framework, and nothing else. */
    method UpdateFramework(framework: SetupFlowFramework)
      modifies this`framework
      ensures this.framework == framework
    {
      this.framework := framework;
    }

    /** `runInvokePlayback`: one wrapper per animation entry, sent to the
        framework's server; true iff the send reports `success(1)`, that
        is, iff the server exists and all its clients are ready. */
    method RunInvokePlayback() returns (ok: bool, ghost wrappers: seq<AnimationWrapper>)
      modifies if framework in serverManager.servers then {serverManager.servers[framework]} else {}
      ensures |wrappers| == |editorModel.animations|
      ensures forall w :: w in wrappers <==>
                exists k :: k in editorModel.animations && w == WrapperFor(k, editorModel.animations[k])
      ensures ok <==> framework in serverManager.servers && AllReady(serverManager.servers[framework].clients)
      ensures framework in serverManager.servers ==>
        var server := serverManager.servers[framework];
        exists visited: seq<ClientId> ::
          server.outbox == old(server.outbox) + SchemaSends(visited, wrappers) &&
          (ok ==> forall k :: k in server.clients <==> k in visited)
    {
      var keys := Enumerate(editorModel.animations.Keys);
      var schemaWrappers := SchemaWrappers(editorModel.animations, keys);
      OneWrapperPerEntry(editorModel.animations, keys);
      wrappers := schemaWrappers;
      var result, visited := serverManager.SendSchema(schemaWrappers, framework);
      match result
      case Success(n) => ok := n == 1;
      case Failure(_) => ok := false;
    }
  }
}
