/**
 * The Blob helpers of jquery.blob.js: the type test `$.blob.is`, the name stamp
 * `$.blob.stamp`, the download name of `$.blob.save` and the guard and encoder
 * arguments of `$.blob.fromCanvas`.
 */
module BlobLib {
  import opened Wrappers
  import opened JsText
  import opened Sources
  import DataUrl

  /** `/^str\//.test(type)` for a literal `str`. */
  predicate InCategory(mime: string, category: string) {
    DataUrl.StartsWith(mime, category + "/")
  }

  /** `$.blob.is(blob, str)`; `str` is None when absent (or otherwise falsy). */
  function Is(blob: Value, str: Option<string>): (r: bool)
    ensures r ==> blob.BlobRef?
    ensures blob.BlobRef? && (str.None? || str == Some("")) ==> r
    ensures blob.BlobRef? && str.Some? && '/' in str.value ==> (r <==> blob.blob.mime == str.value)
  {
    blob.BlobRef? &&
    (str.None? || str.value == "" ||
     (if '/' !in str.value then InCategory(blob.blob.mime, str.value) else str.value == blob.blob.mime))
  }

  /** `is` on what it promises: false for anything but a Blob, and the three ways to test a Blob. */
  lemma IsMeaning(blob: Value, str: Option<string>)
    ensures !blob.BlobRef? ==> !Is(blob, str)
    ensures blob.BlobRef? && (str.None? || str == Some("")) ==> Is(blob, str)
    ensures blob.BlobRef? && str.Some? && str.value != "" && '/' !in str.value ==>
      (Is(blob, str) <==> exists rest :: blob.blob.mime == str.value + "/" + rest)
    ensures blob.BlobRef? && str.Some? && '/' in str.value ==> (Is(blob, str) <==> blob.blob.mime == str.value)
  {
    if blob.BlobRef? && str.Some? && str.value != "" && '/' !in str.value {
      var t := blob.blob.mime;
      var p := str.value + "/";
      if InCategory(t, str.value) {
        assert t == str.value + "/" + t[|p|..];
      }
      forall rest | t == str.value + "/" + rest
        ensures InCategory(t, str.value)
      {
        assert t[..|p|] == p;
      }
    }
  }

  /** The test vectors: null, a string and a data URL are not Blobs; a Blob is one. */
  lemma IsExamples(b: Blob)
    ensures !Is(Null, None) && !Is(Str("wrong"), Some("image")) && !Is(Str(DataUrl.TestGif), None)
    ensures Is(BlobRef(b), None)
  {
  }

  /**
   * `{"image/jpeg": "image.jpg", "image/gif": "image.gif", "image/png": "image.png"}[type]`:
   * the table's own three entries, and for "constructor" and "__proto__" the member the
   * literal inherits from `Object.prototype`.
   */
  function DefaultName(mime: string): (r: Option<NameValue>)
    ensures r.Some? <==> mime in {"image/jpeg", "image/gif", "image/png"} || mime in ProtoKeys
    ensures mime in ProtoKeys ==> r == Some(ProtoMember(mime))
    ensures r.Some? && r.value.Named? ==> r.value.text == "image." + (if mime == "image/jpeg" then "jpg" else mime[6..])
  {
    if mime == "image/jpeg" then Some(Named("image.jpg"))
    else if mime == "image/gif" then Some(Named("image.gif"))
    else if mime == "image/png" then Some(Named("image.png"))
    else if mime in ProtoKeys then Some(ProtoMember(mime))
    else None
  }

  /** The `name` a blob has after `stamp(blob, readOnly)`. */
  function Stamped(name: Option<NameValue>, mime: string, readOnly: bool): Option<NameValue> {
    if name.Some? then name
    else if DefaultName(mime).Some? && !readOnly then DefaultName(mime)
    else None
  }

  /**
   * `$.blob.stamp(blob, readOnly)`: the name of the blob, first writing the default name for
   * its type onto an unnamed jpeg, gif or png blob unless `readOnly` (and, for the types
   * "constructor" and "__proto__", the inherited member); None stands for undefined.
   */
  method Stamp(blob: Value, readOnly: bool) returns (r: Option<NameValue>)
    modifies if blob.BlobRef? then {blob.blob} else {}
    ensures !blob.BlobRef? ==> r.None?
    ensures blob.BlobRef? ==> blob.blob.name == Stamped(old(blob.blob.name), blob.blob.mime, readOnly)
    ensures blob.BlobRef? ==> r == blob.blob.name
  {
    if blob.BlobRef? {
      var b := blob.blob;
      if b.name.None? {
        var name := DefaultName(b.mime);
        if name.Some? && !readOnly {
          b.name := name;
        }
      }
      if b.name.Some? {
        return b.name;
      }
    }
    return None;
  }

  /**
   * A named blob keeps its name; an unnamed image gets the default unless read-only, an
   * unnamed blob of type "constructor" or "__proto__" the inherited member; others get nothing.
   */
  lemma StampMeaning(name: Option<NameValue>, mime: string, readOnly: bool)
    ensures name.Some? ==> Stamped(name, mime, readOnly) == name
    ensures name.None? && !readOnly && mime == "image/jpeg" ==> Stamped(name, mime, readOnly) == Some(Named("image.jpg"))
    ensures name.None? && !readOnly && mime == "image/gif" ==> Stamped(name, mime, readOnly) == Some(Named("image.gif"))
    ensures name.None? && !readOnly && mime == "image/png" ==> Stamped(name, mime, readOnly) == Some(Named("image.png"))
    ensures name.None? && !readOnly && mime in ProtoKeys ==> Stamped(name, mime, readOnly) == Some(ProtoMember(mime))
    ensures name.None? && (readOnly || (mime !in {"image/jpeg", "image/gif", "image/png"} && mime !in ProtoKeys)) ==>
      Stamped(name, mime, readOnly).None?
  {
  }

  /** Stamping twice changes nothing the first stamp did not. */
  lemma StampIdempotent(name: Option<NameValue>, mime: string, readOnly: bool)
    ensures Stamped(Stamped(name, mime, readOnly), mime, readOnly) == Stamped(name, mime, readOnly)
  {
  }

  /** `name || blob.name || blob.type.replace("/", ".")`, as the text the link's `download` takes. */
  function SaveName(mime: string, blobName: Option<NameValue>, name: Option<string>): (r: string)
    ensures name.Some? && name.value != "" ==> r == name.value
    ensures (name.None? || name.value == "") && blobName.Some? && NameTruthy(blobName.value) ==>
      r == NameString(blobName.value)
    ensures (name.None? || name.value == "") && (blobName.None? || !NameTruthy(blobName.value)) ==>
      r == ReplaceFirst(mime, '/', '.')
  {
    if name.Some? && name.value != "" then name.value
    else if blobName.Some? && NameTruthy(blobName.value) then NameString(blobName.value)
    else ReplaceFirst(mime, '/', '.')
  }

  /** A type's `/` turned into `.`, for a type `a/b` whose `a` has no `/`. */
  lemma TypeName(a: string, b: string)
    requires '/' !in a
    ensures ReplaceFirst(a + "/" + b, '/', '.') == a + "." + b
  {
    assert a + "/" + b == a + ['/'] + b;
    ReplaceFirstAt(a, '/', '.', b);
  }

  /** Once stamped, an unnamed blob with a default name is saved under that name. */
  lemma StampedSaveName(mime: string)
    requires DefaultName(mime).Some?
    ensures SaveName(mime, Stamped(None, mime, false), None) == NameString(DefaultName(mime).value)
  {
  }

  /** An unnamed blob of type "__proto__" is stamped with `Object.prototype` and saved under its text. */
  lemma InheritedSaveName()
    ensures Stamped(None, "__proto__", false) == Some(ProtoMember("__proto__"))
    ensures SaveName("__proto__", Stamped(None, "__proto__", false), None) == "[object Object]"
  {
  }

  /** Unstamped, a gif is saved under the name its type gives, which is its default name. */
  lemma GifSaveName()
    ensures SaveName("image/gif", None, None) == DefaultName("image/gif").value.text == "image.gif"
  {
    TypeName("image", "gif");
    assert "image" + "/" + "gif" == "image/gif" && "image" + "." + "gif" == "image.gif";
  }

  /** Unstamped, a png is saved under the name its type gives, which is its default name. */
  lemma PngSaveName()
    ensures SaveName("image/png", None, None) == DefaultName("image/png").value.text == "image.png"
  {
    TypeName("image", "png");
    assert "image" + "/" + "png" == "image/png" && "image" + "." + "png" == "image.png";
  }

  /** Unstamped, a jpeg is saved as `image.jpeg`; stamped, as `image.jpg`. */
  lemma JpegSaveName()
    ensures SaveName("image/jpeg", None, None) == "image.jpeg"
    ensures DefaultName("image/jpeg").value == Named("image.jpg")
  {
    TypeName("image", "jpeg");
    assert "image" + "/" + "jpeg" == "image/jpeg" && "image" + "." + "jpeg" == "image.jpeg";
  }

  /** The `options` argument `fromCanvas` receives: an options object, or a bare type string. */
  datatype CanvasOptions =
    | NoOptions
    | TypeString(mimeType: Option<string>)
    | OptionsObject(async: bool, mimeType: Option<string>, quality: real)

  /**
   * `$.blob.fromCanvas(canvas, options)`. The guard builds its message from `method`, which
   * is not declared in that scope, so a call without `options.async` raises a ReferenceError
   * before `$.error` runs.
   */
  function FromCanvas(canvas: CanvasRef, options: CanvasOptions): (r: Result<Out>)
    ensures r.Ok? <==> options.OptionsObject? && options.async
    ensures r.Err? ==> r.error == ReferenceError("method")
    ensures r.Ok? ==>
      r.value == Encoded(canvas, EncoderArgs(options.mimeType, options.quality)) &&
      (r.value.call.TypeAndQuality? <==> options.mimeType in {Some("image/jpeg"), Some("image/webp")})
  {
    if !(options.OptionsObject? && options.async) then Err(ReferenceError("method"))
    else Ok(Encoded(canvas, EncoderArgs(options.mimeType, options.quality)))
  }

  /**
   * `$.blob.convert(blob, options)`: it refuses to work synchronously, and otherwise draws the
   * Blob with `$.draw.blob2canvas`, a member `$.draw` lacks, so it raises in every mode.
   */
  function Convert(blob: Value, options: Options): (r: Result<Out>)
    ensures r.Err?
    ensures r.error.JQueryError? <==> !options.async
    ensures options.async ==> r.error == Blob2CanvasMissing
  {
    if !options.async then Err(JQueryError("$.blob.convert: Cannot convert blob synchronously."))
    else Err(Blob2CanvasMissing)
  }
}
