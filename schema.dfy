/** The animation schema shared by the Swift runtime and the editor.
    Floating-point quantities are `real` values the model never computes
    with: they are carried, compared and copied only. */
module Schema {
  import opened Wrappers

  datatype Point = Point(x: real, y: real)
  datatype Size = Size(width: real, height: real)

  datatype AnimationValues = AnimationValues(
    scale: real, translate: Size, rotate: real, rotateCenter: real, opacity: real)

  /** The identity values: scale 1, opacity 1, no translation or rotation. */
  const IdentityValues := AnimationValues(1.0, Size(0.0, 0.0), 0.0, 0.0, 1.0)

  datatype Keyframe = Keyframe(id: string, values: AnimationValues, duration: real)

  datatype InvokeType = Trigger | Auto

  datatype AnimationSchema = AnimationSchema(
    id: string, initialValues: AnimationValues, invokeType: InvokeType, keyframes: seq<Keyframe>)

  datatype ObjectType = ShapeObject | AnimationObject

  datatype Shape = Shape(
    id: string, containerId: string, width: real, height: real, position: Point,
    color: seq<real>, shape: string, objectType: ObjectType, zIndex: int,
    animation: AnimationSchema)

  datatype InertiaSchema = InertiaSchema(id: string, objects: seq<Shape>)

  datatype AnimationContainer = AnimationContainer(actionableId: string, containerId: string)

  datatype SchemaWrapper = SchemaWrapper(
    schema: InertiaSchema, actionableId: string, container: AnimationContainer, animationId: string)

  datatype AnimationState = AnimationState(id: string, trigger: Option<bool>, isCancelled: bool)
}
