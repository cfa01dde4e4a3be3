/** The scene containers of bart_impl/BARTParser.h that the parser fills. */
module Scene {
  import opened Geometry
  import opened Shapes

  /** BARTView: camera parameters; resolution is read as two ints. */
  datatype View = View(from: Vec3, at: Vec3, up: Vec3, angle: real, hither: real, xres: int, yres: int)

  datatype Light = Light(pos: Vec3, col: Vec3, isAnimated: int, name: string)

  datatype Background = Background(bgcolor: Vec3)

  datatype AmbientLight = AmbientLight(ambientColor: Vec3)

  datatype Material = Material(amb: Vec3, diff: Vec3, spec: Vec3, shine: real, t: real, ior: real)

  /** BARTSceneInfo. The object map owns its shapes by value rather than through pointers. */
  datatype SceneInfo = SceneInfo(
    view: View,
    back: Background,
    ambient: AmbientLight,
    lights: seq<Light>,
    mats: map<int, Material>,
    objs: map<string, Shape>)
}
