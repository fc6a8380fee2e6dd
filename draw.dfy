/**
 * The parts of jquery.draw.js outside the resize computation: the encoder arguments of
 * `_canvas2url`, the option normalisation and target check at the start of `$.draw`, the
 * File rename in `$.blob.convert`, and the older copies of `$.blob.is` and `$.dataURL.is`
 * that this file installs.
 */
module Draw {
  import opened Wrappers
  import opened JsText
  import opened Sources
  import DataUrl
  import BlobLib

  /** `_canvas2url(canvas, options)`: reading `options.type` of a missing options object raises. */
  function CanvasToUrl(canvas: CanvasRef, options: Option<(Option<string>, real)>): (r: Result<Out>)
    ensures r.Err? <==> options.None?
    ensures r.Ok? ==> r.value.Encoded? && r.value.canvas == canvas
    ensures r.Ok? ==>
      (r.value.call.TypeAndQuality? <==> options.value.0 == Some("image/jpeg") || options.value.0 == Some("image/webp"))
    ensures r.Ok? && r.value.call.TypeAndQuality? ==>
      r.value.call.quality == if options.value.1 == 0.0 then 1.0 else options.value.1
  {
    match options
    case None => Err(DataUrl.ReadOfUndefined("type"))
    case Some((mimeType, quality)) => Ok(Encoded(canvas, EncoderArgs(mimeType, quality)))
  }

  /** The options of `$.draw` once it has read them. */
  datatype DrawOptions = DrawOptions(
    mimeType: Option<string>, width: real, height: real, scale: Option<bool>, async: bool,
    maxWidth: real, maxHeight: real, quality: real)

  /** The third argument of `$.draw`: a plain object, or anything else (read as a type). */
  datatype DrawOptionsArg =
    | PlainOptions(opts: DrawOptions)
    | Scalar(mimeType: Option<string>)

  /** `$.isPlainObject(options) ? options : {width:null, height:null, scale:true, type:options, async:false}` */
  function NormaliseOptions(arg: DrawOptionsArg): (o: DrawOptions)
    ensures arg.PlainOptions? ==> o == arg.opts
    ensures arg.Scalar? ==>
      o.mimeType == arg.mimeType && o.scale == Some(true) && !o.async &&
      o.width == 0.0 && o.height == 0.0 && o.maxWidth == 0.0 && o.maxHeight == 0.0
  {
    match arg
    case PlainOptions(opts) => opts
    case Scalar(t) => DrawOptions(t, 0.0, 0.0, Some(true), false, 0.0, 0.0, 0.0)
  }

  /** The older `$.dataURL.is(url, str)` installed by jquery.draw.js: no one-argument case. */
  function DataUrlIsLegacy(url: Value, str: Option<string>): (b: bool)
    ensures b ==> url.Str? && IsDataPrefixed(url.s) && str.Some?
  {
    if !(url.Str? && IsDataPrefixed(url.s)) then false
    else
      DataUrl.DataUrlHasType(url.s);
      var t := DataUrl.Type(url.s).value;
      if str.Some? && str.value != "" && '/' !in str.value then DataUrl.StartsWith(t, str.value + "/")
      else str == Some(t)
  }

  /** With a second argument the older `is` agrees with the current one. */
  lemma DataUrlIsLegacyAgrees(url: Value, str: string)
    ensures DataUrlIsLegacy(url, Some(str)) == DataUrl.Is(url, Some(str))
  {
  }

  /**
   * With one argument the older `is` is false for every data URL, while its documentation
   * (`$.dataURL.is(url)`) and the current version answer true.
   */
  lemma DataUrlIsLegacyOneArgument(url: string)
    requires IsDataPrefixed(url)
    ensures !DataUrlIsLegacy(Str(url), None)
    ensures DataUrl.Is(Str(url), None)
  {
  }

  /** The test GIF shows it: the older copy rejects it, the current version accepts it. */
  lemma DataUrlIsLegacyOnTestGif()
    ensures !DataUrlIsLegacy(Str(DataUrl.TestGif), None) && DataUrl.Is(Str(DataUrl.TestGif), None)
  {
    DataUrlIsLegacyOneArgument(DataUrl.TestGif);
  }

  /**
   * The older `$.blob.is(blob, str)`: `blob && blob instanceof Blob && (...)` hands back the
   * falsy `blob` itself, and with `str` missing `str.indexOf` raises.
   */
  function BlobIsLegacy(blob: Value, str: Option<string>): (r: Result<Value>)
    ensures !Truthy(blob) ==> r == Ok(blob)
    ensures Truthy(blob) && !blob.BlobRef? ==> r == Ok(Bool(false))
    ensures blob.BlobRef? && str.None? ==> r == Err(DataUrl.ReadOfUndefined("indexOf"))
    ensures r.Ok? && Truthy(blob) ==> r.value.Bool?
  {
    if !Truthy(blob) then Ok(blob)
    else if !blob.BlobRef? then Ok(Bool(false))
    else if str.None? then Err(DataUrl.ReadOfUndefined("indexOf"))
    else if '/' !in str.value then Ok(Bool(BlobLib.InCategory(blob.blob.mime, str.value)))
    else Ok(Bool(str.value == blob.blob.mime))
  }

  /** For a Blob and a non-empty test string the older `is` agrees with the current one. */
  lemma BlobIsLegacyAgrees(blob: Value, str: string)
    requires Truthy(blob) && str != ""
    ensures BlobIsLegacy(blob, Some(str)) == Ok(Bool(BlobLib.Is(blob, Some(str))))
  {
  }

  /** What `$.draw` goes on with once its first checks pass. */
  datatype Prepared = Prepared(opts: DrawOptions, source: DrawSource)

  /** The source after the first step of `$.draw`. */
  datatype DrawSource =
    | FromDataUrl(url: Value)    // `$.dataURL.toBlob(source)`
    | Plain(v: Value)

  /** `typeof(source) === "object" ? $(source).get(0) : source` */
  function FirstOf(v: Value): (r: Value)
    ensures v.Elem? || v.BlobRef? || v.PlainObject? || v.Str? || v.Bool? || v.Undefined? ==> r == v
    ensures v.Null? ==> r == Undefined
    ensures v.JQuery? ==> r == Unwrap(v)
    ensures v.Array? ==> r == if |v.items| > 0 then v.items[0] else Undefined
  {
    match v
    case Null => Undefined
    case Array(items) => if |items| > 0 then items[0] else Undefined
    case JQuery(elems) => if |elems| > 0 then Elem(elems[0]) else Undefined
    case _ => v
  }

  /** The target test `$(target).is("img,canvas")`. */
  predicate IsDrawTarget(e: Element) {
    e.Img? || e.Canvas?
  }

  /**
   * The first lines of `$.draw(source, target, options)`: normalise, unwrap, check the target.
   * `show` is JavaScript's string conversion, which the error message applies to the target.
   */
  function Prepare(source: Value, target: Value, options: DrawOptionsArg, show: Value -> string): (r: Result<Prepared>)
    ensures r.Err? <==> !Matches(target, IsDrawTarget)
    ensures r.Err? ==> r.error == JQueryError("$.draw: Target type not supported: " + show(target))
    ensures r.Ok? ==> r.value.opts == NormaliseOptions(options)
  {
    var opts := NormaliseOptions(options);
    var src := if DataUrlIsLegacy(source, None) then FromDataUrl(source) else Plain(FirstOf(source));
    if !Matches(target, IsDrawTarget) then Err(JQueryError("$.draw: Target type not supported: " + show(target)))
    else Ok(Prepared(opts, src))
  }

  /**
   * The data-URL branch of `$.draw` never runs: the older `is` it calls is false with one
   * argument, so a data URL goes on as the string itself.
   */
  lemma PrepareNeverDecodes(source: Value, target: Value, options: DrawOptionsArg, show: Value -> string)
    requires Prepare(source, target, options, show).Ok?
    ensures Prepare(source, target, options, show).value.source == Plain(FirstOf(source))
    ensures source.Str? ==> Prepare(source, target, options, show).value.source == Plain(source)
  {
  }

  /** A canvas or an image is accepted as target, alone or in a jQuery set. */
  lemma PrepareAcceptsCanvas(source: Value, id: nat, options: DrawOptionsArg, show: Value -> string)
    ensures Prepare(source, Elem(Canvas(id)), options, show).Ok?
    ensures Prepare(source, JQuery([Img(id, "")]), options, show).Ok?
  {
    assert IsDrawTarget(Img(id, ""));
    assert JQuery([Img(id, "")]).elems[0] == Img(id, "");
  }

  /** `type.split("/")[1]`, with `jpeg` read as `jpg`, and `undefined` as text when there is no `/`. */
  function Suffix(mime: string): (s: string)
    ensures '/' !in mime ==> s == "undefined"
  {
    var pieces := Split(mime, '/');
    DataUrl.SplitWithoutOnePiece(mime, '/');
    var s := if |pieces| >= 2 then pieces[1] else "undefined";
    if s == "jpeg" then "jpg" else s
  }

  /**
   * `name.replace(new RegExp("." + suffix + "$"), "." + newSuffix)` as written: the `.` of the
   * pattern is a wildcard that matches any character except a line terminator.
   */
  function ReplaceSuffixAsWritten(name: string, suffix: string, newSuffix: string): (r: string)
    ensures |name| <= |suffix| ==> r == name
  {
    var k := |name| - |suffix| - 1;
    if k >= 0 && name[k + 1..] == suffix && !IsLineTerminator(name[k]) then name[..k] + "." + newSuffix
    else name
  }

  /** The same replacement with the `.` matched literally, as the rename intends. */
  function ReplaceSuffix(name: string, suffix: string, newSuffix: string): (r: string)
    ensures |name| <= |suffix| ==> r == name
  {
    var k := |name| - |suffix| - 1;
    if k >= 0 && name[k + 1..] == suffix && name[k] == '.' then name[..k] + "." + newSuffix
    else name
  }

  /** The name the converted File, as written, is given. */
  function RenameAsWritten(oldType: string, newType: string, name: string): (r: string)
    ensures Suffix(oldType) == Suffix(newType) ==> r == name
  {
    var oldSuffix := Suffix(oldType);
    var newSuffix := Suffix(newType);
    if oldSuffix == newSuffix then name else ReplaceSuffixAsWritten(name, oldSuffix, newSuffix)
  }

  /** The name the converted File is given, with the rename's dot taken literally. */
  function Rename(oldType: string, newType: string, name: string): (r: string)
    ensures Suffix(oldType) == Suffix(newType) ==> r == name
  {
    var oldSuffix := Suffix(oldType);
    var newSuffix := Suffix(newType);
    if oldSuffix == newSuffix then name else ReplaceSuffix(name, oldSuffix, newSuffix)
  }

  /** The rename swaps the extension of `base.old` for the new one, and touches no other name. */
  lemma RenameMeaning(oldType: string, newType: string, base: string, name: string)
    requires Suffix(oldType) != Suffix(newType)
    ensures Rename(oldType, newType, base + "." + Suffix(oldType)) == base + "." + Suffix(newType)
    ensures (forall b :: name != b + "." + Suffix(oldType)) ==> Rename(oldType, newType, name) == name
  {
    var suffix := Suffix(oldType);
    var full := base + "." + suffix;
    var k := |full| - |suffix| - 1;
    assert full[k + 1..] == suffix && full[k] == '.' && full[..k] == base;
    var j := |name| - |suffix| - 1;
    if j >= 0 && name[j + 1..] == suffix && name[j] == '.' {
      assert name == name[..j] + "." + suffix;
    }
  }

  /** Both readings agree whenever the character before the old suffix is a dot. */
  lemma RenameAgreesOnDottedNames(oldType: string, newType: string, base: string)
    ensures RenameAsWritten(oldType, newType, base + "." + Suffix(oldType)) ==
      Rename(oldType, newType, base + "." + Suffix(oldType))
  {
    var suffix := Suffix(oldType);
    var full := base + "." + suffix;
    var k := |full| - |suffix| - 1;
    assert full[k + 1..] == suffix && full[k] == '.';
  }

  /** The suffix of a type `a/b` is `b`, with `jpeg` read as `jpg`. */
  lemma SuffixOf(a: string, b: string)
    requires '/' !in a && '/' !in b
    ensures Suffix(a + "/" + b) == if b == "jpeg" then "jpg" else b
  {
    assert a + "/" + b == a + ['/'] + b;
    SplitAtFirst(a, '/', b);
    SplitWithout(b, '/');
  }

  /** As written, a File `photojpg` converted from jpeg to png is renamed `phot.png`. */
  lemma RenameAsWrittenWildcard(oldType: string, newType: string, name: string)
    requires oldType == "image/jpeg" && newType == "image/png" && name == "photojpg"
    ensures RenameAsWritten(oldType, newType, name) == "phot.png"
    ensures Rename(oldType, newType, name) == name
  {
    assert oldType == "image" + "/" + "jpeg";
    assert newType == "image" + "/" + "png";
    SuffixOf("image", "jpeg");
    SuffixOf("image", "png");
    assert name[5..] == "jpg" && name[4] == 'o' && name[..4] == "phot";
  }
}
