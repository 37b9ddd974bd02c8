/** The Inertia runtime's Metal canvas
    (runtime-swift/Inertia/Sources/Inertia/VibeCanvas.swift): the top-layer
    renderer it installs and refreshes from the environment's data model,
    and its sorted z-indices. The macOS and iOS variants run the same
    steps. */
module InertiaCanvas {
  import opened Schema
  import opened Canvas
  import InertiaModel

  class InertiaCanvas {
    /** The environment's `inertiaDataModel`, absent outside a container. */
    const inertiaDataModel: InertiaModel.DataModel?

    constructor (inertiaDataModel: InertiaModel.DataModel?)
      ensures this.inertiaDataModel == inertiaDataModel
    {
      this.inertiaDataModel := inertiaDataModel;
    }

    /** `makeNSView`: without a data model the root view is returned bare;
        otherwise a renderer of the top-layer vertices is created and handed
        to the coordinator. `installed` says whether that happened. */
    method MakeNSView(coordinator: Coordinator) returns (installed: bool)
      modifies coordinator
      ensures installed <==> inertiaDataModel != null
      ensures !installed ==> coordinator.topVertexRenderer == old(coordinator.topVertexRenderer)
      ensures installed ==>
        coordinator.topVertexRenderer != null && fresh(coordinator.topVertexRenderer) &&
        coordinator.topVertexRenderer.vertices == TopVertices(inertiaDataModel.inertiaSchema.objects)
    {
      if inertiaDataModel == null {
        return false;
      }
      var topViewVertices := BuildTopVertices(inertiaDataModel.inertiaSchema.objects);
      var topVertexRenderer := new VertexRenderer(topViewVertices);
      coordinator.topVertexRenderer := topVertexRenderer;
      installed := true;
    }

    /** `updateNSView`: with a data model, the coordinator's renderer (if
        any) gets the rebuilt vertex list in place of its old one. */
    method UpdateNSView(coordinator: Coordinator)
      modifies if coordinator.topVertexRenderer != null then {coordinator.topVertexRenderer} else {}
      ensures inertiaDataModel != null && coordinator.topVertexRenderer != null ==>
        coordinator.topVertexRenderer.vertices == TopVertices(inertiaDataModel.inertiaSchema.objects)
      ensures inertiaDataModel == null && coordinator.topVertexRenderer != null ==>
        coordinator.topVertexRenderer.vertices == old(coordinator.topVertexRenderer.vertices)
    {
      if inertiaDataModel == null {
        return;
      }
      var topViewVertices := BuildTopVertices(inertiaDataModel.inertiaSchema.objects);
      if coordinator.topVertexRenderer != null {
        coordinator.topVertexRenderer.vertices := topViewVertices;
      }
    }

    /** `collateZIndices`: the distinct z-indices of the schema's objects in
        ascending order, none without a data model. */
    function CollateZIndices(): (r: seq<int>)
      reads this, inertiaDataModel
      ensures Ascending(r)
      ensures inertiaDataModel == null ==> r == []
      ensures inertiaDataModel != null ==> forall z :: z in r <==>
        exists i :: 0 <= i < |inertiaDataModel.inertiaSchema.objects| &&
                    inertiaDataModel.inertiaSchema.objects[i].zIndex == z
    {
      if inertiaDataModel == null then []
      else
        var zs := ZIndices(inertiaDataModel.inertiaSchema.objects);
        assert forall z :: z in zs <==> exists i :: 0 <= i < |zs| && zs[i] == z;
        SortedDistinct(zs)
    }
  }
}
