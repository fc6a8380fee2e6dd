/**
 * The `$.dataURL(source, options)` dispatcher of jquery.dataURL.js: an ordered case analysis
 * over the source (Blob, `<img>` with a data-URL `src`, data URL, file input, array, canvas,
 * other raster element, anything else), followed by the `multiple` and `async` wrapping.
 */
module DataUrlDispatch {
  import opened Wrappers
  import opened Sources
  import DataUrl
  import JsText

  /** Blobs come first in the termination order: a file input hands on its files as Blobs. */
  function Rank(v: Value): nat {
    if v.BlobRef? then 0 else 1
  }

  /** The lexicographic order on (Rank, value) that the recursion descends. */
  ghost predicate Below(child: Value, parent: Value) {
    Rank(child) < Rank(parent) || (Rank(child) == Rank(parent) && child < parent)
  }

  /** `$(source).is('input[type="file"]')` */
  predicate IsFileInput(e: Element) {
    e.FileInput?
  }

  /** `source.tagName.toLowerCase() === "img" && source.src && /^data:/.test(source.src)` */
  predicate IsDataImage(v: Value) {
    v.Elem? && v.e.Img? && IsDataPrefixed(v.e.src)
  }

  /** The data-URL case, shared by a data URL and an `<img>` whose `src` is one. */
  function DataCase(url: Value, opts: Options): Result<Out> {
    if opts.convert then
      if !opts.async then Err(JQueryError("dataURL handling can only be done asynchronously"))
      else Err(Url2CanvasMissing)
    else Ok(Val(url))
  }

  /** The default case: raise in sync mode, a rejected Deferred in async mode. */
  function Unsupported(v: Value, opts: Options): Result<Out> {
    if !opts.async then Err(JQueryError("source not supported")) else Ok(Rejected(v))
  }

  /** The `multiple` / `async` wrapping of an output; an error raised before it propagates. */
  function Finished(opts: Options, r: Result<Out>): Result<Out> {
    if r.Ok? then Ok(Finish(opts, r.value)) else r
  }

  /** The result of `$.dataURL(undefined, options)`, the child call for an empty array. */
  function OfUndefined(opts: Options): Result<Out> {
    Finished(opts, Unsupported(Undefined, opts))
  }

  /** The result of each item, a recursive call on the same options. */
  function Children(items: seq<Value>, opts: Options, ghost parent: Value): (r: seq<Result<Out>>)
    requires forall i :: 0 <= i < |items| ==> Below(items[i], parent)
    ensures |r| == |items|
    decreases Rank(parent), parent, 0, 0
  {
    seq(|items|, i requires 0 <= i < |items| => assert Below(items[i], parent); Of(items[i], opts))
  }

  /** `$.map(items, v => $.dataURL(v, options))`: the first child that raises stops the map. */
  function MapAll(items: seq<Value>, opts: Options, ghost parent: Value): Result<Out>
    requires forall i :: 0 <= i < |items| ==> Below(items[i], parent)
    decreases Rank(parent), parent, 0, 1
  {
    match Collect(Children(items, opts, parent))
    case Ok(outs) => Ok(Many(Flatten(outs)))
    case Err(e) => Err(e)
  }

  /** The array case over `items`: every element in order with `multiple`, else element 0. */
  function ArrayCase(items: seq<Value>, opts: Options, ghost parent: Value): Result<Out>
    requires forall i :: 0 <= i < |items| ==> Below(items[i], parent)
    decreases Rank(parent), parent, 0, 2
  {
    if opts.multiple then MapAll(items, opts, parent)
    else if |items| == 0 then OfUndefined(opts)
    else assert Below(items[0], parent); Of(items[0], opts)
  }

  /** The case analysis on the unwrapped source, before the `multiple` / `async` wrapping. */
  function Cases(src: Value, opts: Options, ghost parent: Value): Result<Out>
    requires src == Unwrap(parent)
    decreases Rank(parent), parent, 1
  {
    if src.BlobRef? then
      if !opts.async then Err(JQueryError("Blob handling can only be done asynchronously"))
      else if opts.convert then Err(Blob2CanvasMissing)
      else Ok(ReadAsUrl(src))
    else if IsDataImage(src) then DataCase(Str(src.e.src), opts)
    else if DataUrl.Is(src, None) then DataCase(src, opts)
    else if Matches(src, IsFileInput) then ArrayCase(FilesOf(src), opts, parent)
    else if src.Array? then ArrayCase(src.items, opts, parent)
    else if src.Elem? && src.e.Canvas? && !opts.convert then Ok(DataUrl.FromCanvas(GivenCanvas(src.e), opts))
    else if src.Elem? && IsRaster(src.e) then Err(Element2CanvasMissing)
    else Unsupported(src, opts)
  }

  /** What `$.dataURL(source, options)` returns or raises, `opts` being the merged options. */
  function Of(source: Value, opts: Options): Result<Out>
    decreases Rank(source), source, 2
  {
    Finished(opts, Cases(Unwrap(source), opts, source))
  }

  /** One child's contribution to `$.map`: an array result is spliced, anything else kept. */
  function Spliced(o: Out): seq<Out> {
    if o.Many? then o.items else [o]
  }

  /** Flattening one more result appends its splice. */
  lemma {:induction false} FlattenSnoc(rs: seq<Out>, o: Out)
    ensures Flatten(rs + [o]) == Flatten(rs) + Spliced(o)
  {
    var t := rs + [o];
    if rs == [] {
      assert t == [o];
      assert Flatten(t) == Spliced(o) + Flatten([]);
    } else {
      assert t[0] == rs[0] && t[1..] == rs[1..] + [o];
      assert Flatten(t) == Spliced(rs[0]) + Flatten(rs[1..] + [o]);
      assert Flatten(rs) == Spliced(rs[0]) + Flatten(rs[1..]);
      FlattenSnoc(rs[1..], o);
      JsText.AppendAssoc(Spliced(rs[0]), Flatten(rs[1..]), Spliced(o));
    }
  }

  /** The map stops at, and raises, the first child that raises. */
  lemma CollectStops(rs: seq<Result<Out>>, i: nat)
    requires i < |rs| && rs[i].Err?
    requires forall j :: 0 <= j < i ==> rs[j].Ok?
    ensures Collect(rs) == Err(rs[i].error)
  {
    var k :| 0 <= k < |rs| && rs[k] == Err(Collect(rs).error) && forall j :: 0 <= j < k ==> rs[j].Ok?;
    assert k == i;
  }

  /** The first `|vals|` children succeeded, with these values. */
  predicate OkPrefix(rs: seq<Result<Out>>, vals: seq<Out>) {
    |vals| <= |rs| && forall j :: 0 <= j < |vals| ==> rs[j] == Ok(vals[j])
  }

  /** One more child succeeding extends the prefix. */
  lemma OkPrefixSnoc(rs: seq<Result<Out>>, vals: seq<Out>, v: Out)
    requires OkPrefix(rs, vals) && |vals| < |rs| && rs[|vals|] == Ok(v)
    ensures OkPrefix(rs, vals + [v])
  {
  }

  /** A map in which no child raises yields every child's result, in order. */
  lemma CollectAll(rs: seq<Result<Out>>, vals: seq<Out>)
    requires |vals| == |rs|
    requires forall j :: 0 <= j < |rs| ==> rs[j] == Ok(vals[j])
    ensures Collect(rs) == Ok(vals)
  {
  }

  /**
   * `$.dataURL(source, options)` as the source runs it: merge the options, unwrap a jQuery
   * set, take the first matching case (falling through from an `<img>` to the data-URL case
   * and from a file input to the array case), then wrap for `multiple` and `async`. Having no
   * `modifies` clause, it leaves the caller's options object as it was.
   */
  method DataUrlCall(source: Value, options: UserOptions?) returns (r: Result<Out>)
    ensures r == Of(source, Merge(options))
  {
    r := Dispatch(source, Merge(options));
  }

  /** The body of `$.dataURL` after `$.extend`, on the merged options. */
  method Dispatch(source0: Value, options: Options) returns (r: Result<Out>)
    ensures r == Of(source0, options)
    decreases Rank(source0), source0, 2
  {
    var cased := CasePart(Unwrap(source0), options, source0);
    if cased.Err? {
      return Err(cased.error);
    }
    var output := cased.value;
    if options.multiple && !output.Many? {
      output := Many([output]);
    }
    if options.async {
      output := When(if output.Many? then output.items else [output]);
    }
    return Ok(output);
  }

  /** The case analysis of `$.dataURL` on the unwrapped source, up to the `multiple` / `async` wrapping. */
  method CasePart(source0: Value, options: Options, ghost parent: Value) returns (r: Result<Out>)
    requires source0 == Unwrap(parent)
    ensures r == Cases(source0, options, parent)
    decreases Rank(parent), parent, 1
  {
    var opts := options;
    var source := source0;
    if source.BlobRef? {
      if !opts.async {
        return Err(JQueryError("Blob handling can only be done asynchronously"));
      }
      if opts.convert {
        return Err(Blob2CanvasMissing);
      }
      r := Ok(ReadAsUrl(source));
      opts := opts.(convert := false);
    } else if IsDataImage(source) || DataUrl.Is(source, None) {
      if IsDataImage(source) {
        source := Str(source.e.src);
      }
      if opts.convert {
        if !opts.async {
          return Err(JQueryError("dataURL handling can only be done asynchronously"));
        }
        return Err(Url2CanvasMissing);
      } else {
        r := Ok(Val(source));
      }
    } else if Matches(source, IsFileInput) || source.Array? {
      var items := if Matches(source, IsFileInput) then FilesOf(source) else source.items;
      assert forall i :: 0 <= i < |items| ==> Below(items[i], parent);
      r := ArrayPart(items, opts, parent);
      opts := opts.(convert := false);
    } else if source.Elem? && source.e.Canvas? && !opts.convert {
      r := Ok(DataUrl.FromCanvas(GivenCanvas(source.e), opts));
      opts := opts.(convert := true);
    } else if source.Elem? && IsRaster(source.e) {
      return Err(Element2CanvasMissing);
    } else {
      if !opts.async {
        return Err(JQueryError("source not supported"));
      }
      r := Ok(Rejected(source));
    }
  }

  /** `$.map` over the items, each child a recursive `$.dataURL` on the same options. */
  method MapPart(items: seq<Value>, opts: Options, ghost parent: Value) returns (r: Result<Out>)
    requires forall i :: 0 <= i < |items| ==> Below(items[i], parent)
    ensures r == MapAll(items, opts, parent)
    decreases Rank(parent), parent, 0, 1
  {
    ghost var rs := Children(items, opts, parent);
    ghost var vals: seq<Out> := [];
    var outs: seq<Out> := [];
    for i := 0 to |items|
      invariant |vals| == i
      invariant OkPrefix(rs, vals)
      invariant outs == Flatten(vals)
    {
      var child := Dispatch(items[i], opts);
      assert rs[i] == child;
      if child.Err? {
        CollectStops(rs, i);
        return Err(child.error);
      }
      FlattenSnoc(vals, child.value);
      OkPrefixSnoc(rs, vals, child.value);
      vals := vals + [child.value];
      outs := outs + Spliced(child.value);
    }
    CollectAll(rs, vals);
    return Ok(Many(outs));
  }

  /** The array case: `$.map` over the items with `multiple`, else `$.dataURL(source[0])`. */
  method ArrayPart(items: seq<Value>, opts: Options, ghost parent: Value) returns (r: Result<Out>)
    requires forall i :: 0 <= i < |items| ==> Below(items[i], parent)
    ensures r == ArrayCase(items, opts, parent)
    decreases Rank(parent), parent, 0, 2
  {
    if opts.multiple {
      r := MapPart(items, opts, parent);
    } else if |items| == 0 {
      return OfUndefined(opts);
    } else {
      r := Dispatch(items[0], opts);
    }
  }

  /** The sources the dispatcher has a case for; anything else is "not supported". */
  predicate Supported(src: Value) {
    src.BlobRef? || IsDataImage(src) || DataUrl.Is(src, None) || Matches(src, IsFileInput) ||
    src.Array? || (src.Elem? && IsRaster(src.e))
  }

  /** An unsupported source raises in sync mode and is a rejected promise in async mode. */
  lemma UnsupportedSource(v: Value, opts: Options)
    requires !Supported(Unwrap(v))
    ensures !opts.async ==> Of(v, opts) == Err(JQueryError("source not supported"))
    ensures opts.async ==> Of(v, opts) == Ok(When([Rejected(Unwrap(v))]))
  {
  }

  /** The sync-mode errors: Blobs always, data URLs when a conversion is asked for. */
  lemma SyncErrors(v: Value, opts: Options)
    requires !opts.async
    ensures Unwrap(v).BlobRef? ==> Of(v, opts) == Err(JQueryError("Blob handling can only be done asynchronously"))
    ensures opts.convert && (IsDataImage(Unwrap(v)) || DataUrl.Is(Unwrap(v), None)) ==>
      Of(v, opts) == Err(JQueryError("dataURL handling can only be done asynchronously"))
  {
  }

  /** The items the array case runs over: a file input's files, or the array itself. */
  function ItemsOf(src: Value): seq<Value> {
    if Matches(src, IsFileInput) then FilesOf(src) else if src.Array? then src.items else []
  }

  /** The sources that reach the array case. */
  predicate IsArrayCase(src: Value) {
    !src.BlobRef? && !IsDataImage(src) && !DataUrl.Is(src, None) && (Matches(src, IsFileInput) || src.Array?)
  }

  /** An array-case source is worked on through its items. */
  lemma ArrayCaseOf(v: Value, opts: Options)
    requires IsArrayCase(Unwrap(v))
    ensures forall i :: 0 <= i < |ItemsOf(Unwrap(v))| ==> Below(ItemsOf(Unwrap(v))[i], v)
    ensures Of(v, opts) == Finished(opts, ArrayCase(ItemsOf(Unwrap(v)), opts, v))
  {
  }

  /**
   * In async mode every result is a promise, and the only errors are the drawing calls: of an
   * image, a video or a canvas to convert, of a data URL to convert and of a Blob to convert.
   * They raise however deeply they are nested: the wrapping in `$.when` comes after the case
   * analysis.
   */
  lemma {:induction false} AsyncErrors(v: Value, opts: Options)
    requires opts.async
    ensures Of(v, opts).Ok? ==> Of(v, opts).value.When?
    ensures Of(v, opts).Err? ==> Of(v, opts).error in {Element2CanvasMissing, Url2CanvasMissing, Blob2CanvasMissing}
    decreases Rank(v), v
  {
    var src := Unwrap(v);
    if IsArrayCase(src) {
      var items := ItemsOf(src);
      ArrayCaseOf(v, opts);
      if opts.multiple {
        var rs := Children(items, opts, v);
        if Collect(rs).Err? {
          var k :| 0 <= k < |rs| && rs[k] == Err(Collect(rs).error);
          AsyncErrors(items[k], opts);
        }
        assert MapAll(items, opts, v) == if Collect(rs).Ok? then Ok(Many(Flatten(Collect(rs).value))) else Err(Collect(rs).error);
      } else if |items| > 0 {
        AsyncErrors(items[0], opts);
        assert ArrayCase(items, opts, v) == Of(items[0], opts);
      } else {
        assert ArrayCase(items, opts, v) == Ok(When([Rejected(Undefined)]));
      }
    }
  }

  /** An async call over an array whose only item is a video raises rather than giving a promise. */
  lemma AsyncVideoRaises(id: nat, opts: Options)
    requires opts.async
    ensures Of(Array([Elem(Video(id))]), opts) == Err(Element2CanvasMissing)
  {
    var items := [Elem(Video(id))];
    assert !Matches(Array(items), IsFileInput);
    ArrayCaseOf(Array(items), opts);
    assert Of(items[0], opts) == Err(Element2CanvasMissing);
    if opts.multiple {
      var rs := Children(items, opts, Array(items));
      assert rs[0] == Of(items[0], opts);
      CollectStops(rs, 0);
    } else {
      assert ArrayCase(items, opts, Array(items)) == Of(items[0], opts);
    }
  }

  /** A data URL, or an `<img>` showing one, is handed back unchanged when no conversion is asked for. */
  lemma DataUrlUnchanged(url: string, id: nat, opts: Options)
    requires IsDataPrefixed(url) && !opts.convert
    ensures Of(Str(url), opts) == Ok(Finish(opts, Val(Str(url))))
    ensures Of(Elem(Img(id, url)), opts) == Ok(Finish(opts, Val(Str(url))))
    ensures Of(JQuery([Img(id, url)]), opts) == Ok(Finish(opts, Val(Str(url))))
  {
  }

  /**
   * A conversion of a data URL, or of a Blob, gets past the mode check only in async mode,
   * and then raises in the drawing call `$.draw` lacks.
   */
  lemma ConversionsRaise(v: Value, opts: Options)
    requires opts.convert
    ensures Unwrap(v).BlobRef? ==>
      Of(v, opts) == Err(if opts.async then Blob2CanvasMissing else JQueryError("Blob handling can only be done asynchronously"))
    ensures !Unwrap(v).BlobRef? && (IsDataImage(Unwrap(v)) || DataUrl.Is(Unwrap(v), None)) ==>
      Of(v, opts) == Err(if opts.async then Url2CanvasMissing else JQueryError("dataURL handling can only be done asynchronously"))
  {
  }

  /** A Blob without conversion is read as a data URL. */
  lemma BlobIsRead(b: Blob, opts: Options)
    requires opts.async && !opts.convert
    ensures Of(BlobRef(b), opts) == Ok(When([ReadAsUrl(BlobRef(b))]))
  {
  }

  /**
   * A canvas is encoded directly unless converting; any other image or video, and a canvas
   * to convert, goes to the drawing call, which raises in every mode.
   */
  lemma ElementCases(e: Element, opts: Options)
    requires e.Canvas? || (e.Img? && !IsDataPrefixed(e.src)) || e.Video?
    ensures e.Canvas? && !opts.convert ==>
      Of(Elem(e), opts) == Ok(Finish(opts, Encoded(GivenCanvas(e), EncoderArgs(opts.mimeType, opts.quality))))
    ensures !(e.Canvas? && !opts.convert) ==> Of(Elem(e), opts) == Err(Element2CanvasMissing)
  {
  }

  /** Without `multiple`, an array stands for its first element (and an empty one for undefined). */
  lemma ArrayFirstOnly(items: seq<Value>, opts: Options)
    requires !opts.multiple && !Matches(Array(items), IsFileInput)
    ensures |items| > 0 ==>
      Of(Array(items), opts) == Finished(opts, Of(items[0], opts))
    ensures |items| == 0 ==> Of(Array(items), opts) == (if opts.async then Ok(When([When([Rejected(Undefined)])]))
      else Err(JQueryError("source not supported")))
  {
    ArrayCaseOf(Array(items), opts);
    if |items| > 0 {
      assert ArrayCase(items, opts, Array(items)) == Of(items[0], opts);
    } else {
      assert ArrayCase(items, opts, Array(items)) == OfUndefined(opts);
    }
  }

  /** A flattening of one-element arrays is the sequence of their elements. */
  lemma {:induction false} FlattenSingletons(rs: seq<Out>, xs: seq<Out>)
    requires |rs| == |xs|
    requires forall i :: 0 <= i < |rs| ==> rs[i] == Many([xs[i]])
    ensures Flatten(rs) == xs
  {
    if rs != [] {
      FlattenSingletons(rs[1..], xs[1..]);
      assert xs == [xs[0]] + xs[1..];
    }
  }

  /**
   * With `multiple`, an array (or a file input) whose items all succeed gives every item's
   * result, in item order, a child's own array being spliced in.
   */
  lemma MultipleInOrder(v: Value, opts: Options, outs: seq<Out>)
    requires opts.multiple && IsArrayCase(Unwrap(v))
    requires |outs| == |ItemsOf(Unwrap(v))|
    requires forall i :: 0 <= i < |outs| ==> Of(ItemsOf(Unwrap(v))[i], opts) == Ok(outs[i])
    ensures Of(v, opts) == Ok(Finish(opts, Many(Flatten(outs))))
  {
    var items := ItemsOf(Unwrap(v));
    ArrayCaseOf(v, opts);
    var rs := Children(items, opts, v);
    CollectAll(rs, outs);
    assert ArrayCase(items, opts, v) == Ok(Many(Flatten(outs)));
  }

  /** The array of strings `urls`. */
  function Strs(urls: seq<string>): (r: seq<Value>)
    ensures |r| == |urls| && forall i :: 0 <= i < |urls| ==> r[i] == Str(urls[i])
  {
    seq(|urls|, i requires 0 <= i < |urls| => Str(urls[i]))
  }

  /**
   * With `multiple`, an array of data URLs gives each URL back, in order: as an array in sync
   * mode, as one promise of one promise per URL in async mode.
   */
  lemma MultipleDataUrlsInOrder(urls: seq<string>, opts: Options)
    requires opts.multiple && !opts.convert
    requires forall i :: 0 <= i < |urls| ==> IsDataPrefixed(urls[i])
    ensures !opts.async ==>
      Of(Array(Strs(urls)), opts) == Ok(Many(seq(|urls|, i requires 0 <= i < |urls| => Val(Str(urls[i])))))
    ensures opts.async ==>
      Of(Array(Strs(urls)), opts) == Ok(When(seq(|urls|, i requires 0 <= i < |urls| => When([Val(Str(urls[i]))]))))
  {
    var items := Strs(urls);
    var vals := seq(|urls|, i requires 0 <= i < |urls| => Val(Str(urls[i])));
    var outs := seq(|urls|, i requires 0 <= i < |urls| => Finish(opts, vals[i]));
    forall i | 0 <= i < |items|
      ensures Of(items[i], opts) == Ok(outs[i])
    {
      DataUrlUnchanged(urls[i], 0, opts);
    }
    assert !Matches(Array(items), IsFileInput);
    MultipleInOrder(Array(items), opts, outs);
    if !opts.async {
      assert forall i :: 0 <= i < |outs| ==> outs[i] == Many([vals[i]]);
      FlattenSingletons(outs, vals);
    } else {
      assert forall i :: 0 <= i < |outs| ==> outs[i] == When([vals[i]]);
      assert Flatten(outs) == outs;
      assert outs == seq(|urls|, i requires 0 <= i < |urls| => When([Val(Str(urls[i]))]));
    }
  }

  /** With `multiple`, a file input gives one read per selected file, in order. */
  lemma FilesInOrder(id: nat, files: seq<Blob>, opts: Options)
    requires opts.multiple && opts.async && !opts.convert
    ensures Of(Elem(FileInput(id, files)), opts) ==
      Ok(When(seq(|files|, i requires 0 <= i < |files| => When([ReadAsUrl(BlobRef(files[i]))]))))
  {
    var v := Elem(FileInput(id, files));
    var outs := seq(|files|, i requires 0 <= i < |files| => When([ReadAsUrl(BlobRef(files[i]))]));
    forall i | 0 <= i < |files|
      ensures Of(ItemsOf(v)[i], opts) == Ok(outs[i])
    {
      BlobIsRead(files[i], opts);
    }
    MultipleInOrder(v, opts, outs);
    assert Flatten(outs) == outs;
  }

  /** The options `{async: true}` and `{async: true, multiple: true}` of the tests, merged. */
  const AsyncOnly := Options(None, 0.0, true, false, false, 0.0, 0.0)
  const AsyncMultiple := Options(None, 0.0, true, true, false, 0.0, 0.0)

  /** The test GIF is a data URL. */
  lemma TestGifIsDataUrl()
    ensures IsDataPrefixed(DataUrl.TestGif)
  {
    var h := "data:image/gif;base64,";
    assert h[..5] == "data:";
    assert DataUrl.TestGif[..5] == (h + DataUrl.GifPayload)[..5] == h[..5];
  }

  /**
   * The asynchronous test vectors, for any two data URLs `t1` and `t2` (the tests use the
   * one-pixel GIF as `t1`): `t1` alone resolves to itself; `[t1, t2]` resolves to `t1` only;
   * with `multiple` both resolve, in order.
   */
  lemma AsyncVectors(t1: string, t2: string)
    requires IsDataPrefixed(t1) && IsDataPrefixed(t2)
    ensures Of(Str(t1), AsyncOnly) == Ok(When([Val(Str(t1))]))
    ensures Of(Array([Str(t1), Str(t2)]), AsyncOnly) == Ok(When([When([Val(Str(t1))])]))
    ensures Of(Array([Str(t1), Str(t2)]), AsyncMultiple) == Ok(When([When([Val(Str(t1))]), When([Val(Str(t2))])]))
  {
    DataUrlUnchanged(t1, 0, AsyncOnly);
    ArrayFirstOnly([Str(t1), Str(t2)], AsyncOnly);
    assert Finish(AsyncOnly, When([Val(Str(t1))])) == When([When([Val(Str(t1))])]);
    var urls := [t1, t2];
    MultipleDataUrlsInOrder(urls, AsyncMultiple);
    assert Strs(urls) == [Str(t1), Str(t2)];
    assert seq(|urls|, i requires 0 <= i < |urls| => When([Val(Str(urls[i]))])) ==
      [When([Val(Str(t1))]), When([Val(Str(t2))])];
  }

  /** The options `{async: true, multiple: true, convert: true, type: "image/png"}`, merged. */
  const ConvertToPng := Options(Some("image/png"), 0.0, true, true, true, 0.0, 0.0)

  /**
   * With `convert`, the array's first data URL goes to `$.draw.url2canvas`, which raises and
   * stops the map before the second is reached.
   */
  lemma ConvertVector(t1: string, t2: string)
    requires IsDataPrefixed(t1) && IsDataPrefixed(t2)
    ensures Of(Array([Str(t1), Str(t2)]), ConvertToPng) == Err(Url2CanvasMissing)
  {
    var items := [Str(t1), Str(t2)];
    assert !Matches(Array(items), IsFileInput);
    ArrayCaseOf(Array(items), ConvertToPng);
    var rs := Children(items, ConvertToPng, Array(items));
    ConversionsRaise(items[0], ConvertToPng);
    assert rs[0] == Err(Url2CanvasMissing);
    CollectStops(rs, 0);
  }
}
