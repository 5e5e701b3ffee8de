/** The picture records shared by the album loader, the grab state machine
    and the spawner. */
module Pictures {
  import opened Wrappers
  import opened Json

  datatype Vector3 = Vector3(x: real, y: real, z: real)

  const Zero := Vector3(0.0, 0.0, 0.0)

  datatype Color = Color(r: real, g: real, b: real, a: real)

  /** One framed picture: its image file, its placement and its frame geometry. */
  datatype FramedPicture = FramedPicture(
    path: string,
    position: Vector3,
    rotation: Vector3,      // Euler angles in degrees
    width: real,
    height: real,
    padding: real,
    thickness: real,
    color: Color)

  /** A picture of the running scene: its record, whether a scene object was
      created for it, and the JSON object it will be saved to. */
  datatype PictureData = PictureData(
    framedPicture: FramedPicture,
    hasObject: bool,
    jsonConfig: Option<Json>)

  /** The mod settings the parser falls back on, and the colour parser of the
      engine (`ColorUtility.TryParseHtmlString`), which is a foreign function. */
  datatype Settings = Settings(
    defaultPadding: real,
    defaultThickness: real,
    defaultSize: real,
    defaultColor: Color,
    parseHtmlColor: string -> Option<Color>)
}
