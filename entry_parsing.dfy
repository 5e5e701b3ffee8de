/** Parsing one album entry of the configuration file into a picture record,
    and the size derivation done when the picture's scene object is built. */
module EntryParsing {
  import opened Wrappers
  import opened Json
  import opened Files
  import opened Pictures

  /** The exceptions the parser throws, one kind per message. */
  datatype ParseError =
    | NotAnObject
    | MissingPath
    | MissingField(name: string)
    | NotAnArray(name: string)
    | WrongLength(name: string)
    | NotANumber(name: string)
    | MalformedColor

  predicate AllNumbers(items: seq<Json>)
  {
    forall i :: 0 <= i < |items| ==> items[i].JNum?
  }

  /** `token.ToObject<float[]>()`: every element converted, or an exception. */
  function ToFloats(items: seq<Json>): (r: Option<seq<real>>)
    ensures r.Some? <==> AllNumbers(items)
    ensures r.Some? ==> |r.value| == |items| && forall i :: 0 <= i < |items| ==> r.value[i] == items[i].num
  {
    if items == [] then Some([])
    else if !items[0].JNum? then None
    else
      match ToFloats(items[1..])
      case None => None
      case Some(rest) => Some([items[0].num] + rest)
  }

  /** `ParseVector3(obj[fieldName], fieldName)`; `None` is a missing field. */
  function ParseVector3(token: Option<Json>, fieldName: string): (r: Result<Vector3, ParseError>)
    ensures token.None? ==> r == Failure(MissingField(fieldName))
    ensures token.Some? && !token.value.JArr? ==> r == Failure(NotAnArray(fieldName))
    ensures r.Success? <==> token.Some? && token.value.JArr? && |token.value.items| == 3 && AllNumbers(token.value.items)
    ensures r.Success? ==>
      var v := token.value.items;
      r.value == Vector3(v[0].num, v[1].num, v[2].num)
  {
    if token.None? then Failure(MissingField(fieldName))
    else if !token.value.JArr? then Failure(NotAnArray(fieldName))
    else
      match ToFloats(token.value.items)
      case None => Failure(NotANumber(fieldName))
      case Some(values) =>
        if |values| != 3 then Failure(WrongLength(fieldName))
        else Success(Vector3(values[0], values[1], values[2]))
  }

  /** `ParseColor`: an array of at least three numbers (alpha 1 when there is no
      fourth), or a string the engine's HTML colour parser accepts. */
  function ParseColor(token: Json, parseHtml: string -> Option<Color>): (r: Result<Color, ParseError>)
    ensures token.JArr? && AllNumbers(token.items) && |token.items| >= 3 ==>
      var c := token.items;
      r == Success(Color(c[0].num, c[1].num, c[2].num, if |c| >= 4 then c[3].num else 1.0))
    ensures token.JArr? && (!AllNumbers(token.items) || |token.items| < 3) ==> r.Failure?
    ensures token.JStr? ==> (r.Success? <==> parseHtml(token.str).Some?)
    ensures token.JStr? && r.Success? ==> r.value == parseHtml(token.str).value
    ensures !token.JArr? && !token.JStr? ==> r == Failure(MalformedColor)
  {
    if token.JArr? then
      match ToFloats(token.items)
      case None => Failure(NotANumber("color"))
      case Some(c) =>
        if |c| >= 3 then Success(Color(c[0], c[1], c[2], if |c| >= 4 then c[3] else 1.0))
        else Failure(MalformedColor)
    else if token.JStr? then
      match parseHtml(token.str)
      case Some(color) => Success(color)
      case None => Failure(MalformedColor)
    else Failure(MalformedColor)
  }

  /** `obj.Value<float?>(key)`: absent or null gives no value, a number its value. */
  function OptionalNumber(fields: map<string, Json>, key: string): (r: Result<Option<real>, ParseError>)
  {
    if key !in fields || fields[key].JNull? then Success(None)
    else if fields[key].JNum? then Success(Some(fields[key].num))
    else Failure(NotANumber(key))
  }

  /** `obj.Value<string>("path")` when it is a non-empty string. */
  function PathOf(fields: map<string, Json>): Option<string>
  {
    if "path" in fields && fields["path"].JStr? && fields["path"].str != "" then Some(fields["path"].str) else None
  }

  function OrElse(v: Option<real>, default: real): real
  {
    if v.Some? then v.value else default
  }

  /** `ParsePictureData`: the record of one album entry, or the exception it throws. */
  function ParsePictureData(pictureData: Json, settings: Settings): (r: Result<FramedPicture, ParseError>)
    ensures !pictureData.JObj? ==> r == Failure(NotAnObject)
    ensures pictureData.JObj? && PathOf(pictureData.fields).None? ==> r == Failure(MissingPath)
    ensures r.Success? <==>
      && pictureData.JObj?
      && PathOf(pictureData.fields).Some?
      && ParseVector3(Field(pictureData.fields, "position"), "position").Success?
      && ParseVector3(Field(pictureData.fields, "rotation"), "rotation").Success?
      && OptionalNumber(pictureData.fields, "width").Success?
      && OptionalNumber(pictureData.fields, "height").Success?
      && OptionalNumber(pictureData.fields, "padding").Success?
      && OptionalNumber(pictureData.fields, "thickness").Success?
      && ("color" in pictureData.fields ==> ParseColor(pictureData.fields["color"], settings.parseHtmlColor).Success?)
    ensures r.Success? ==>
      var obj := pictureData.fields;
      var fp := r.value;
      && fp.path == PathOf(obj).value && fp.path != ""
      && fp.position == ParseVector3(Field(obj, "position"), "position").value
      && fp.rotation == ParseVector3(Field(obj, "rotation"), "rotation").value
      && fp.width == OrElse(OptionalNumber(obj, "width").value, 0.0)
      && fp.height == OrElse(OptionalNumber(obj, "height").value, 0.0)
      && fp.padding == 2.0 * OrElse(OptionalNumber(obj, "padding").value, settings.defaultPadding)
      && fp.thickness == OrElse(OptionalNumber(obj, "thickness").value, settings.defaultThickness)
      && fp.color == (if "color" in obj then ParseColor(obj["color"], settings.parseHtmlColor).value else settings.defaultColor)
  {
    if !pictureData.JObj? then Failure(NotAnObject)
    else
      var obj := pictureData.fields;
      match PathOf(obj)
      case None => Failure(MissingPath)
      case Some(path) =>
        match ParseVector3(Field(obj, "position"), "position")
        case Failure(e) => Failure(e)
        case Success(position) =>
          match ParseVector3(Field(obj, "rotation"), "rotation")
          case Failure(e) => Failure(e)
          case Success(rotation) =>
            match OptionalNumber(obj, "width")
            case Failure(e) => Failure(e)
            case Success(width) =>
              match OptionalNumber(obj, "height")
              case Failure(e) => Failure(e)
              case Success(height) =>
                match OptionalNumber(obj, "padding")
                case Failure(e) => Failure(e)
                case Success(padding) =>
                  match OptionalNumber(obj, "thickness")
                  case Failure(e) => Failure(e)
                  case Success(thickness) =>
                    var color :=
                      if "color" in obj then ParseColor(obj["color"], settings.parseHtmlColor)
                      else Success(settings.defaultColor);
                    match color
                    case Failure(e) => Failure(e)
                    case Success(c) =>
                      Success(FramedPicture(path, position, rotation,
                                            OrElse(width, 0.0), OrElse(height, 0.0),
                                            2.0 * OrElse(padding, settings.defaultPadding),
                                            OrElse(thickness, settings.defaultThickness), c))
  }

  /** The size derivation of `CreatePictureBlock`: when neither dimension is
      given, the longer side of the image gets `defaultSize`; the other side is
      then derived so that the image inside the padding keeps its aspect ratio
      (`aspect` is the image's height over its width). A zero `defaultSize`
      leaves the width zero, so it is derived from the height after all. */
  function DeriveSize(fp: FramedPicture, aspect: PositiveReal, defaultSize: real): (r: FramedPicture)
    ensures r == fp.(width := r.width, height := r.height)
    ensures fp.width == 0.0 && fp.height == 0.0 && aspect > 1.0 ==> r.height == defaultSize
    ensures fp.width == 0.0 && fp.height == 0.0 && aspect <= 1.0 && defaultSize != 0.0 ==> r.width == defaultSize
    ensures fp.width != 0.0 ==> r.width == fp.width
    ensures fp.width == 0.0 && fp.height != 0.0 ==> r.height == fp.height
    ensures r.height - r.padding == (r.width - r.padding) * aspect
  {
    var sized :=
      if fp.width == 0.0 && fp.height == 0.0 then
        if aspect > 1.0 then fp.(height := defaultSize) else fp.(width := defaultSize)
      else fp;
    if sized.width == 0.0 then
      var w := (sized.height - sized.padding) / aspect + sized.padding;
      assert (w - sized.padding) * aspect == sized.height - sized.padding;
      sized.(width := w)
    else
      sized.(height := (sized.width - sized.padding) * aspect + sized.padding)
  }
}
