/**
 * The `$.blob(source, options)` dispatcher of jquery.blob.js. It has the case order of
 * `$.dataURL`, but a Blob comes back as itself and a data URL is decoded into a new Blob.
 * Canvases, images and videos always raise: the canvas case passes `fromCanvas` a bare type,
 * on which it raises, and the drawing case raises in `$.draw.element2canvas`, which is
 * evaluated before `fromCanvas` is called. Conversions of a data URL or a Blob raise too, in
 * `$.draw.url2canvas` and `$.draw.blob2canvas`.
 */
module BlobDispatch {
  import opened Wrappers
  import opened Sources
  import DataUrl
  import BlobLib
  import D = DataUrlDispatch

  /**
   * A result the method returns conforms to the specified one: a `Made(type, bytes)` is a
   * Blob holding that type and those bytes; everything else is equal, item by item.
   */
  predicate Conforms(a: Out, s: Out)
    decreases s
  {
    match s
    case Made(m, bytes) => a.Val? && a.v.BlobRef? && a.v.blob.mime == m && a.v.blob.bytes == bytes
    case Many(items) => a.Many? && |a.items| == |items| && forall i :: 0 <= i < |items| ==> Conforms(a.items[i], items[i])
    case When(items) => a.When? && |a.items| == |items| && forall i :: 0 <= i < |items| ==> Conforms(a.items[i], items[i])
    case _ => a == s
  }

  /** Item by item conformance of two sequences of results. */
  predicate ConformsAll(xs: seq<Out>, ss: seq<Out>) {
    |xs| == |ss| && forall i :: 0 <= i < |ss| ==> Conforms(xs[i], ss[i])
  }

  /** The same error, or conforming values. */
  predicate ConformsResult(a: Result<Out>, s: Result<Out>) {
    if s.Ok? then a.Ok? && Conforms(a.value, s.value) else a == s
  }

  /** The data-URL case: convert asynchronously through a canvas (which raises), or decode with `toBlob`. */
  function DataCase(url: string, opts: Options, atob: string -> Option<string>): Result<Out> {
    if opts.convert then
      if !opts.async then Err(JQueryError("dataURL conversion can only be done asynchronously"))
      else Err(Url2CanvasMissing)
    else
      match DataUrl.BlobContent(url, atob)
      case Ok(content) => Ok(Made(content.0, content.1))
      case Err(e) => Err(e)
  }

  /** The result of each item, a recursive call on the same options. */
  function Children(items: seq<Value>, opts: Options, atob: string -> Option<string>, ghost parent: Value): (r: seq<Result<Out>>)
    requires forall i :: 0 <= i < |items| ==> D.Below(items[i], parent)
    ensures |r| == |items|
    decreases D.Rank(parent), parent, 0, 0
  {
    seq(|items|, i requires 0 <= i < |items| => assert D.Below(items[i], parent); Of(items[i], opts, atob))
  }

  /** `$.map(items, v => $.blob(v, options))`: the first child that raises stops the map. */
  function MapAll(items: seq<Value>, opts: Options, atob: string -> Option<string>, ghost parent: Value): Result<Out>
    requires forall i :: 0 <= i < |items| ==> D.Below(items[i], parent)
    decreases D.Rank(parent), parent, 0, 1
  {
    match Collect(Children(items, opts, atob, parent))
    case Ok(outs) => Ok(Many(Flatten(outs)))
    case Err(e) => Err(e)
  }

  /** The array case over `items`: every element in order with `multiple`, else element 0. */
  function ArrayCase(items: seq<Value>, opts: Options, atob: string -> Option<string>, ghost parent: Value): Result<Out>
    requires forall i :: 0 <= i < |items| ==> D.Below(items[i], parent)
    decreases D.Rank(parent), parent, 0, 2
  {
    if opts.multiple then MapAll(items, opts, atob, parent)
    else if |items| == 0 then D.OfUndefined(opts)
    else assert D.Below(items[0], parent); Of(items[0], opts, atob)
  }

  /** The case analysis on the unwrapped source, before the `multiple` / `async` wrapping. */
  function Cases(src: Value, opts: Options, atob: string -> Option<string>, ghost parent: Value): Result<Out>
    requires src == Unwrap(parent)
    decreases D.Rank(parent), parent, 1
  {
    if src.BlobRef? then
      if opts.convert then
        if !opts.async then Err(JQueryError("Blob conversion can only be done asynchronously"))
        else BlobLib.Convert(src, opts)
      else Ok(Val(src))
    else if D.IsDataImage(src) then DataCase(src.e.src, opts, atob)
    else if DataUrl.Is(src, None) then DataCase(src.s, opts, atob)
    else if Matches(src, D.IsFileInput) then ArrayCase(FilesOf(src), opts, atob, parent)
    else if src.Array? then ArrayCase(src.items, opts, atob, parent)
    else if src.Elem? && src.e.Canvas? && !opts.convert then
      BlobLib.FromCanvas(GivenCanvas(src.e), BlobLib.TypeString(opts.mimeType))
    else if src.Elem? && IsRaster(src.e) then Err(Element2CanvasMissing)
    else D.Unsupported(src, opts)
  }

  /** What `$.blob(source, options)` returns or raises, `opts` being the merged options. */
  function Of(source: Value, opts: Options, atob: string -> Option<string>): Result<Out>
    decreases D.Rank(source), source, 2
  {
    D.Finished(opts, Cases(Unwrap(source), opts, atob, source))
  }

  /** An array-case source is worked on through its items. */
  lemma ArrayCaseOf(v: Value, opts: Options, atob: string -> Option<string>)
    requires D.IsArrayCase(Unwrap(v))
    ensures forall i :: 0 <= i < |D.ItemsOf(Unwrap(v))| ==> D.Below(D.ItemsOf(Unwrap(v))[i], v)
    ensures Of(v, opts, atob) == D.Finished(opts, ArrayCase(D.ItemsOf(Unwrap(v)), opts, atob, v))
  {
  }

  /** A conforming result is an array exactly when the specified one is. */
  lemma ConformsShape(a: Out, s: Out)
    requires Conforms(a, s)
    ensures a.Many? <==> s.Many?
    ensures s.Many? ==> ConformsAll(a.items, s.items)
  {
  }

  /** The `multiple` / `async` wrapping keeps conformance. */
  lemma FinishConforms(opts: Options, a: Out, s: Out)
    requires Conforms(a, s)
    ensures Conforms(Finish(opts, a), Finish(opts, s))
  {
    ConformsShape(a, s);
  }

  /** Splicing child results keeps conformance. */
  lemma SplicedConforms(xs: seq<Out>, ss: seq<Out>, a: Out, s: Out)
    requires ConformsAll(xs, ss) && Conforms(a, s)
    ensures ConformsAll(xs + D.Spliced(a), ss + D.Spliced(s))
  {
    ConformsShape(a, s);
  }

  /**
   * `$.blob(source, options)` as the source runs it. Having no `modifies` clause, it leaves
   * the caller's options object and every existing Blob as they were.
   */
  method BlobCall(source: Value, options: UserOptions?, atob: string -> Option<string>) returns (r: Result<Out>)
    ensures ConformsResult(r, Of(source, Merge(options), atob))
  {
    r := Dispatch(source, Merge(options), atob);
  }

  /** The body of `$.blob` after `$.extend`, on the merged options. */
  method Dispatch(source0: Value, options: Options, atob: string -> Option<string>) returns (r: Result<Out>)
    ensures ConformsResult(r, Of(source0, options, atob))
    decreases D.Rank(source0), source0, 2
  {
    var source := Unwrap(source0);
    var cased := CasePart(source, options, atob, source0);
    if cased.Err? {
      return Err(cased.error);
    }
    var output := cased.value;
    ghost var spec := Cases(source, options, atob, source0);
    FinishConforms(options, output, spec.value);
    if options.multiple && !output.Many? {
      output := Many([output]);
    }
    if options.async {
      output := When(if output.Many? then output.items else [output]);
    }
    return Ok(output);
  }

  /** The case analysis of `$.blob` on the unwrapped source, up to the `multiple` / `async` wrapping. */
  method CasePart(source: Value, options: Options, atob: string -> Option<string>, ghost source0: Value) returns (r: Result<Out>)
    requires source == Unwrap(source0)
    ensures ConformsResult(r, Cases(source, options, atob, source0))
    decreases D.Rank(source0), source0, 1
  {
    var opts := options;
    if source.BlobRef? {
      if opts.convert {
        if !opts.async {
          return Err(JQueryError("Blob conversion can only be done asynchronously"));
        }
        return BlobLib.Convert(source, opts);
      } else {
        r := Ok(Val(source));
      }
    } else if D.IsDataImage(source) || DataUrl.Is(source, None) {
      var url := if D.IsDataImage(source) then source.e.src else source.s;
      if opts.convert {
        if !opts.async {
          return Err(JQueryError("dataURL conversion can only be done asynchronously"));
        }
        return Err(Url2CanvasMissing);
      } else {
        var blob := DataUrl.ToBlob(url, atob);
        if blob.Err? {
          return Err(blob.error);
        }
        r := Ok(Val(BlobRef(blob.value)));
      }
    } else if Matches(source, D.IsFileInput) || source.Array? {
      var items := if Matches(source, D.IsFileInput) then FilesOf(source) else source.items;
      assert forall i :: 0 <= i < |items| ==> D.Below(items[i], source0);
      r := ArrayPart(items, opts, atob, source0);
      opts := opts.(convert := false);
    } else if source.Elem? && source.e.Canvas? && !opts.convert {
      return BlobLib.FromCanvas(GivenCanvas(source.e), BlobLib.TypeString(opts.mimeType));
    } else if source.Elem? && IsRaster(source.e) {
      return Err(Element2CanvasMissing);
    } else {
      if !opts.async {
        return Err(JQueryError("source not supported"));
      }
      r := Ok(Rejected(source));
    }
  }

  /** `$.map` over the items, each child a recursive `$.blob` on the same options. */
  method MapPart(items: seq<Value>, opts: Options, atob: string -> Option<string>, ghost parent: Value) returns (r: Result<Out>)
    requires forall i :: 0 <= i < |items| ==> D.Below(items[i], parent)
    ensures ConformsResult(r, MapAll(items, opts, atob, parent))
    decreases D.Rank(parent), parent, 0, 1
  {
    ghost var rs := Children(items, opts, atob, parent);
    ghost var vals: seq<Out> := [];
    var outs: seq<Out> := [];
    for i := 0 to |items|
      invariant |vals| == i
      invariant D.OkPrefix(rs, vals)
      invariant ConformsAll(outs, Flatten(vals))
    {
      var child := Dispatch(items[i], opts, atob);
      assert ConformsResult(child, rs[i]);
      if child.Err? {
        D.CollectStops(rs, i);
        return Err(child.error);
      }
      ghost var s := rs[i].value;
      D.FlattenSnoc(vals, s);
      SplicedConforms(outs, Flatten(vals), child.value, s);
      D.OkPrefixSnoc(rs, vals, s);
      vals := vals + [s];
      outs := outs + D.Spliced(child.value);
    }
    D.CollectAll(rs, vals);
    return Ok(Many(outs));
  }

  /** The array case: `$.map` over the items with `multiple`, else `$.blob(source[0])`. */
  method ArrayPart(items: seq<Value>, opts: Options, atob: string -> Option<string>, ghost parent: Value) returns (r: Result<Out>)
    requires forall i :: 0 <= i < |items| ==> D.Below(items[i], parent)
    ensures ConformsResult(r, ArrayCase(items, opts, atob, parent))
    decreases D.Rank(parent), parent, 0, 2
  {
    if opts.multiple {
      r := MapPart(items, opts, atob, parent);
    } else if |items| == 0 {
      return D.OfUndefined(opts);
    } else {
      r := Dispatch(items[0], opts, atob);
    }
  }

  /** Without conversion a Blob comes back as itself: the very same object. */
  lemma BlobUnchanged(b: Blob, opts: Options, atob: string -> Option<string>)
    requires !opts.convert
    ensures Of(BlobRef(b), opts, atob) == Ok(Finish(opts, Val(BlobRef(b))))
  {
  }

  /** The sync-mode errors: conversions of a Blob or of a data URL. */
  lemma SyncErrors(v: Value, opts: Options, atob: string -> Option<string>)
    requires !opts.async && opts.convert
    ensures Unwrap(v).BlobRef? ==> Of(v, opts, atob) == Err(JQueryError("Blob conversion can only be done asynchronously"))
    ensures !Unwrap(v).BlobRef? && (D.IsDataImage(Unwrap(v)) || DataUrl.Is(Unwrap(v), None)) ==>
      Of(v, opts, atob) == Err(JQueryError("dataURL conversion can only be done asynchronously"))
  {
  }

  /** The async-mode conversions raise in the drawing call `$.draw` lacks. */
  lemma ConversionsRaise(v: Value, opts: Options, atob: string -> Option<string>)
    requires opts.async && opts.convert
    ensures Unwrap(v).BlobRef? ==> Of(v, opts, atob) == Err(Blob2CanvasMissing)
    ensures !Unwrap(v).BlobRef? && (D.IsDataImage(Unwrap(v)) || DataUrl.Is(Unwrap(v), None)) ==>
      Of(v, opts, atob) == Err(Url2CanvasMissing)
  {
  }

  /**
   * Without conversion a data URL is decoded into a Blob of its type, as the Blob constructor
   * normalises it, one byte per decoded character; a payload `atob` rejects raises InvalidCharacterError.
   */
  lemma DataUrlDecoded(url: string, opts: Options, atob: string -> Option<string>)
    requires IsDataPrefixed(url) && !opts.convert
    ensures DataUrl.Type(url).Ok?
    ensures atob(DataUrl.Payload(url)).None? ==> Of(Str(url), opts, atob) == Err(InvalidCharacterError)
    ensures atob(DataUrl.Payload(url)).Some? ==>
      var binary := atob(DataUrl.Payload(url)).value;
      Of(Str(url), opts, atob) == Ok(Finish(opts, Made(BlobType(DataUrl.Type(url).value),
        seq(|binary|, i requires 0 <= i < |binary| => DataUrl.Byte(binary[i])))))
  {
    DataUrl.DataUrlHasType(url);
  }

  /**
   * Canvases, images and videos raise, whatever the options: a canvas not to convert in
   * `fromCanvas`, anything else in the drawing call before `fromCanvas` is reached.
   */
  lemma ElementsRaise(e: Element, opts: Options, atob: string -> Option<string>)
    requires e.Canvas? || (e.Img? && !IsDataPrefixed(e.src)) || e.Video?
    ensures e.Canvas? && !opts.convert ==> Of(Elem(e), opts, atob) == Err(ReferenceError("method"))
    ensures !(e.Canvas? && !opts.convert) ==> Of(Elem(e), opts, atob) == Err(Element2CanvasMissing)
  {
  }

  /**
   * In async mode the only errors are the canvas encoder's, the three drawing calls' and a
   * payload `atob` rejects.
   */
  lemma {:induction false} AsyncErrors(v: Value, opts: Options, atob: string -> Option<string>)
    requires opts.async
    ensures Of(v, opts, atob).Err? ==> Of(v, opts, atob).error in {ReferenceError("method"), Element2CanvasMissing, Url2CanvasMissing, Blob2CanvasMissing, InvalidCharacterError}
    decreases D.Rank(v), v
  {
    var src := Unwrap(v);
    if D.IsArrayCase(src) {
      var items := D.ItemsOf(src);
      ArrayCaseOf(v, opts, atob);
      if opts.multiple {
        var rs := Children(items, opts, atob, v);
        if Collect(rs).Err? {
          var k :| 0 <= k < |rs| && rs[k] == Err(Collect(rs).error);
          AsyncErrors(items[k], opts, atob);
        }
        assert MapAll(items, opts, atob, v) == if Collect(rs).Ok? then Ok(Many(Flatten(Collect(rs).value))) else Err(Collect(rs).error);
      } else if |items| > 0 {
        AsyncErrors(items[0], opts, atob);
        assert ArrayCase(items, opts, atob, v) == Of(items[0], opts, atob);
      } else {
        assert ArrayCase(items, opts, atob, v) == Ok(When([Rejected(Undefined)]));
      }
    } else if !src.BlobRef? && (D.IsDataImage(src) || DataUrl.Is(src, None)) {
      var url := if D.IsDataImage(src) then src.e.src else src.s;
      DataUrl.DataUrlHasType(url);
    }
  }

  /**
   * With `multiple`, an array (or a file input) whose items all succeed gives every item's
   * result, in item order, a child's own array being spliced in.
   */
  lemma MultipleInOrder(v: Value, opts: Options, atob: string -> Option<string>, outs: seq<Out>)
    requires opts.multiple && D.IsArrayCase(Unwrap(v))
    requires |outs| == |D.ItemsOf(Unwrap(v))|
    requires forall i :: 0 <= i < |outs| ==> Of(D.ItemsOf(Unwrap(v))[i], opts, atob) == Ok(outs[i])
    ensures Of(v, opts, atob) == Ok(Finish(opts, Many(Flatten(outs))))
  {
    var items := D.ItemsOf(Unwrap(v));
    ArrayCaseOf(v, opts, atob);
    var rs := Children(items, opts, atob, v);
    D.CollectAll(rs, outs);
    assert ArrayCase(items, opts, atob, v) == Ok(Many(Flatten(outs)));
  }

  /** In sync mode with `multiple`, a file input gives its selected files themselves, in order. */
  lemma FilesAsThemselves(id: nat, files: seq<Blob>, opts: Options, atob: string -> Option<string>)
    requires opts.multiple && !opts.async && !opts.convert
    ensures Of(Elem(FileInput(id, files)), opts, atob) ==
      Ok(Many(seq(|files|, i requires 0 <= i < |files| => Val(BlobRef(files[i])))))
  {
    var v := Elem(FileInput(id, files));
    var vals := seq(|files|, i requires 0 <= i < |files| => Val(BlobRef(files[i])));
    var outs := seq(|files|, i requires 0 <= i < |files| => Many([vals[i]]));
    forall i | 0 <= i < |files|
      ensures Of(D.ItemsOf(v)[i], opts, atob) == Ok(outs[i])
    {
      BlobUnchanged(files[i], opts, atob);
    }
    MultipleInOrder(v, opts, atob, outs);
    D.FlattenSingletons(outs, vals);
  }

  /**
   * The test vector `$.blob(url, {async: true})`: a data URL whose payload decodes resolves
   * to a single Blob of the URL's type, as the Blob constructor normalises it.
   */
  lemma AsyncVector(url: string, atob: string -> Option<string>)
    requires IsDataPrefixed(url) && atob(DataUrl.Payload(url)).Some?
    ensures DataUrl.BlobContent(url, atob).Ok?
    ensures Of(Str(url), D.AsyncOnly, atob).Ok?
    ensures Of(Str(url), D.AsyncOnly, atob).value.When?
    ensures |Of(Str(url), D.AsyncOnly, atob).value.items| == 1
    ensures Of(Str(url), D.AsyncOnly, atob).value.items[0] ==
      Made(BlobType(DataUrl.Type(url).value), DataUrl.BlobContent(url, atob).value.1)
  {
    DataUrlDecoded(url, D.AsyncOnly, atob);
  }
}
