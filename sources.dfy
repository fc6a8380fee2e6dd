/**
 * The values the `$.dataURL` and `$.blob` plugins accept as a source, the options
 * they merge with their defaults, and the results they hand back.
 */
module Sources {
  import opened Wrappers
  import JsText

  /**
   * The keys an object literal inherits from `Object.prototype` that a lower-case text can
   * equal: looking either up in a literal table gives a truthy value, not undefined.
   */
  const ProtoKeys: set<string> := {"constructor", "__proto__"}

  /**
   * What a Blob's `name` property holds: text, or the member `$.blob.stamp` copies there from
   * its lookup table for the type "constructor" (the `Object` function) or "__proto__"
   * (`Object.prototype`).
   */
  datatype NameValue = Named(text: string) | ProtoMember(key: string)

  /** `String(n)`, the text a name reads as where a string is wanted. */
  function NameString(n: NameValue): string {
    match n
    case Named(t) => t
    case ProtoMember(key) => if key == "constructor" then "function Object() { [native code] }" else "[object Object]"
  }

  /** JavaScript truthiness of a name: a function or an object is always truthy. */
  predicate NameTruthy(n: NameValue) {
    n.ProtoMember? || n.text != ""
  }

  /** A type a Blob can hold: printable ASCII with no upper-case letter. */
  type BlobMime = t: string | forall i :: 0 <= i < |t| ==> ' ' <= t[i] <= '~' && !('A' <= t[i] <= 'Z')

  /** Every character of `t` lies in U+0020..U+007E. */
  predicate Printable(t: string) {
    forall i :: 0 <= i < |t| ==> ' ' <= t[i] <= '~'
  }

  /**
   * The `type` the Blob constructor keeps of the one it is given: the empty string when a
   * character lies outside U+0020..U+007E, else the text with ASCII letters lower-cased.
   */
  function BlobType(t: string): (r: BlobMime)
    ensures !Printable(t) ==> r == ""
    ensures Printable(t) ==> |r| == |t| && forall i :: 0 <= i < |t| ==> r[i] == JsText.LowerChar(t[i])
  {
    if Printable(t) then
      JsText.LowerAsciiAt(t);
      JsText.LowerAscii(t)
    else ""
  }

  /** A printable type is lower-cased; one with a control character is dropped. */
  lemma BlobTypeExamples()
    ensures BlobType("Image/PNG") == "image/png"
    ensures BlobType("image/png\n") == ""
  {
    assert Printable("Image/PNG");
    assert !Printable("image/png\n") by { assert "image/png\n"[9] == '\n'; }
  }

  /** A type already in normal form is kept, so normalising twice is normalising once. */
  lemma BlobTypeKeepsNormal(t: BlobMime)
    ensures BlobType(t) == t
  {
    assert Printable(t);
    assert forall i :: 0 <= i < |t| ==> JsText.LowerChar(t[i]) == t[i];
  }

  /**
   * A Blob or File. Its MIME type and bytes are fixed when it is made, the type in the normal
   * form the constructor gives it; `name` is the property a File carries (None when the
   * object has no `name` property at all).
   */
  class Blob {
    const mime: BlobMime
    const bytes: seq<bv8>
    var name: Option<NameValue>

    /** `new Blob([bytes], {type: mime})`, with a `name` set on it when given. */
    constructor (mime: string, bytes: seq<bv8>, name: Option<NameValue>)
      ensures this.mime == BlobType(mime) && this.bytes == bytes && this.name == name
    {
      this.mime := BlobType(mime);
      this.bytes := bytes;
      this.name := name;
    }
  }

  /** The DOM elements the plugins tell apart. `id` stands for the element's identity. */
  datatype Element =
    | Img(id: nat, src: string)
    | Canvas(id: nat)
    | Video(id: nat)
    | FileInput(id: nat, files: seq<Blob>)   // `<input type="file">` and its FileList
    | OtherElement(id: nat, tag: string)

  predicate IsRaster(e: Element) {
    e.Img? || e.Canvas? || e.Video?
  }

  /** A JavaScript value handed to the plugins as a source. */
  datatype Value =
    | Undefined
    | Null
    | Bool(b: bool)
    | Str(s: string)
    | BlobRef(blob: Blob)
    | Elem(e: Element)
    | Array(items: seq<Value>)
    | JQuery(elems: seq<Element>)            // a jQuery set of elements
    | PlainObject

  /** JavaScript truthiness of a value (numbers are not modelled). */
  predicate Truthy(v: Value) {
    !(v.Undefined? || v.Null? || v == Bool(false) || v == Str(""))
  }

  /** `source instanceof $ ? source.get(0) : source` */
  function Unwrap(v: Value): (r: Value)
    ensures !r.JQuery?
    ensures !v.JQuery? ==> r == v
    ensures v.JQuery? ==> r == if |v.elems| > 0 then Elem(v.elems[0]) else Undefined
  {
    match v
    case JQuery(elems) => if |elems| > 0 then Elem(elems[0]) else Undefined
    case _ => v
  }

  /** `$(v).is(selector)`: true when some element of `v` satisfies the selector test. */
  predicate Matches(v: Value, sel: Element -> bool) {
    match v
    case Elem(e) => sel(e)
    case Array(items) => exists i :: 0 <= i < |items| && items[i].Elem? && sel(items[i].e)
    case JQuery(elems) => exists i :: 0 <= i < |elems| && sel(elems[i])
    case _ => false
  }

  /** `$.makeArray($(v).prop("files"))`: the files of the first element when it is a file input. */
  function FilesOf(v: Value): (r: seq<Value>)
    ensures forall i :: 0 <= i < |r| ==> r[i].BlobRef?
  {
    var first :=
      match v
      case Elem(e) => Some(e)
      case Array(items) => if |items| > 0 && items[0].Elem? then Some(items[0].e) else None
      case JQuery(elems) => if |elems| > 0 then Some(elems[0]) else None
      case _ => None;
    if first.Some? && first.value.FileInput? then
      seq(|first.value.files|, i requires 0 <= i < |first.value.files| => BlobRef(first.value.files[i]))
    else []
  }

  /**
   * The options once merged with `{type: null, async: false, multiple: false, convert: false}`.
   * Every default is null or false, so an absent option reads as its default; a number
   * option that is absent reads as 0, which is falsy like undefined.
   */
  datatype Options = Options(
    mimeType: Option<string>, quality: real, async: bool, multiple: bool, convert: bool,
    width: real, height: real)

  /** The options object a caller hands in; the plugins only ever read it. */
  class UserOptions {
    var mimeType: Option<string>
    var quality: real
    var async: bool
    var multiple: bool
    var convert: bool
    var width: real
    var height: real

    constructor (mimeType: Option<string>, quality: real, async: bool, multiple: bool, convert: bool)
      ensures this.mimeType == mimeType && this.quality == quality && this.async == async
      ensures this.multiple == multiple && this.convert == convert
      ensures width == 0.0 && height == 0.0
    {
      this.mimeType := mimeType;
      this.quality := quality;
      this.async := async;
      this.multiple := multiple;
      this.convert := convert;
      width := 0.0;
      height := 0.0;
    }
  }

  /** `$.extend({type:null, async:false, multiple:false, convert:false}, options || {})` */
  function Merge(u: UserOptions?): (o: Options)
    reads u
    ensures u == null ==> o == Options(None, 0.0, false, false, false, 0.0, 0.0)
    ensures u != null ==>
      o.mimeType == u.mimeType && o.async == u.async && o.multiple == u.multiple &&
      o.convert == u.convert && o.quality == u.quality && o.width == u.width && o.height == u.height
  {
    if u == null then Options(None, 0.0, false, false, false, 0.0, 0.0)
    else Options(u.mimeType, u.quality, u.async, u.multiple, u.convert, u.width, u.height)
  }

  /** The canvas an encoder runs on: the source canvas itself. */
  datatype CanvasRef = GivenCanvas(e: Element)

  /**
   * What a call `$.draw.<helper>(...)` raises. `$.draw` is a function with no members
   * (jquery.draw.js keeps its drawing in the private `_elementToCanvas`,
   * `async_url2Canvas` and `async_blob2Canvas`), so the call fails before anything is drawn or encoded, whatever the
   * options, `async` included.
   */
  function DrawHelperMissing(helper: string): Error {
    TypeError("$.draw." + helper + " is not a function")
  }

  /** `$.draw.element2canvas(source, canvas, options)`, the drawing of an element. */
  const Element2CanvasMissing := DrawHelperMissing("element2canvas")

  /** `$.draw.url2canvas(url, canvas, options)`, the drawing of a data URL. */
  const Url2CanvasMissing := DrawHelperMissing("url2canvas")

  /** `$.draw.blob2canvas(blob, canvas, options)`, the drawing of a Blob. */
  const Blob2CanvasMissing := DrawHelperMissing("blob2canvas")

  /** The arguments `canvas.toDataURL` / `canvas.toBlob` receive after the callback. */
  datatype EncodeCall =
    | TypeAndQuality(format: string, quality: real)
    | TypeOnly(requested: Option<string>)

  /** `/^image\/(jpeg|webp)$/.test(type) ? (type, (quality || 1) / 1) : (type)` */
  function EncoderArgs(mimeType: Option<string>, quality: real): (c: EncodeCall)
    ensures c.TypeAndQuality? <==> mimeType == Some("image/jpeg") || mimeType == Some("image/webp")
    ensures c.TypeAndQuality? ==> c.format == mimeType.value && c.quality == (if quality == 0.0 then 1.0 else quality)
    ensures c.TypeOnly? ==> c.requested == mimeType
  {
    if mimeType == Some("image/jpeg") || mimeType == Some("image/webp") then
      TypeAndQuality(mimeType.value, if quality == 0.0 then 1.0 else quality)
    else TypeOnly(mimeType)
  }

  /** What a dispatcher returns. */
  datatype Out =
    | Val(v: Value)                                      // a value handed back as it is
    | Many(items: seq<Out>)                              // a JavaScript array of results
    | When(items: seq<Out>)                              // `$.when(...)` over the results
    | Rejected(source: Value)                            // a Deferred rejected with "source not supported: " + source
    | ReadAsUrl(blob: Value)                             // the Deferred of `$.blob.readAsDataURL(blob, {async: true})`
    | Encoded(canvas: CanvasRef, call: EncodeCall)       // the data URL `canvas.toDataURL(...)` returns
    | Made(mime: string, bytes: seq<bv8>)                // (description only) a new Blob with this content

  /**
   * The common tail of both dispatchers: `multiple` forces an array, `async` wraps the
   * result in `$.when` (a jQuery Deferred is a plain object, so `instanceof $.Deferred`
   * never holds and the wrapping always happens).
   */
  function Finish(opts: Options, out: Out): (r: Out)
    ensures !opts.async && !opts.multiple ==> r == out
    ensures !opts.async && opts.multiple ==> r == (if out.Many? then out else Many([out]))
    ensures opts.async && opts.multiple ==> r == When(if out.Many? then out.items else [out])
    ensures opts.async && !opts.multiple ==> r == When(if out.Many? then out.items else [out])
  {
    var o := if opts.multiple && !out.Many? then Many([out]) else out;
    if opts.async then When(if o.Many? then o.items else [o]) else o
  }

  /** `$.map(children, f)`: an array returned by `f` is spliced into the result. */
  function Flatten(rs: seq<Out>): (r: seq<Out>)
    ensures (forall i :: 0 <= i < |rs| ==> !rs[i].Many?) ==> r == rs
  {
    if rs == [] then []
    else (if rs[0].Many? then rs[0].items else [rs[0]]) + Flatten(rs[1..])
  }

  /** Each child result in turn; the first child that raises stops the map. */
  function Collect(rs: seq<Result<Out>>): (r: Result<seq<Out>>)
    ensures r.Ok? <==> forall i :: 0 <= i < |rs| ==> rs[i].Ok?
    ensures r.Ok? ==> |r.value| == |rs| && forall i :: 0 <= i < |rs| ==> r.value[i] == rs[i].value
    ensures r.Err? ==>
      exists i :: 0 <= i < |rs| && rs[i] == Err(r.error) && forall j :: 0 <= j < i ==> rs[j].Ok?
  {
    if rs == [] then Ok([])
    else if rs[0].Err? then Err(rs[0].error)
    else
      match Collect(rs[1..])
      case Ok(tail) => Ok([rs[0].value] + tail)
      case Err(e) => Err(e)
  }

  /** `/^data:/.test(s)` */
  predicate IsDataPrefixed(s: string) {
    |s| >= 5 && s[..5] == "data:"
  }
}
