/**
 * The data-URL helpers of jquery.dataURL.js (`$.dataURL.type`, `rawSize`, `size`, `toBlob`,
 * the download name of `save`, `is` and the encoder arguments of `fromCanvas`). jquery.draw.js
 * carries older copies of `type`, `rawSize`, `size`, `toBlob` and `save` that are the same
 * code; its differing `is` is in module Draw.
 */
module DataUrl {
  import opened Wrappers
  import opened JsText
  import opened Sources

  /** JavaScript's message for reading a property of `undefined`. */
  function ReadOfUndefined(property: string): Error {
    TypeError("Cannot read properties of undefined (reading '" + property + "')")
  }

  /** `url.split(',')[0].split(':')[1].split(';')[0]` */
  function Type(url: string): (r: Result<string>)
    ensures r.Err? <==> ':' !in Split(url, ',')[0]
    ensures r.Err? ==> r.error == ReadOfUndefined("split")
    ensures r.Ok? ==> ',' !in r.value && ':' !in r.value && ';' !in r.value
  {
    var head := Split(url, ',')[0];
    var fields := Split(head, ':');
    SplitPiecesLackSeparator(url, ',');
    SplitPiecesLackSeparator(head, ':');
    if |fields| < 2 then
      SplitWithoutOnePiece(head, ':');
      Err(ReadOfUndefined("split"))
    else
      SplitWithoutOnePiece(head, ':');
      SplitHasSeparator(head, ':');
      var t := Split(fields[1], ';')[0];
      SplitPiecesLackSeparator(fields[1], ';');
      SplitHasSeparator(fields[1], ';');
      SubPiece(url, ',', head, fields[1], t);
      Ok(t)
  }

  lemma SubPiece(url: string, c: char, head: string, field: string, t: string)
    requires c !in head
    requires forall k :: 0 <= k < |field| ==> field[k] in head
    requires forall k :: 0 <= k < |t| ==> t[k] in field
    requires ':' !in field
    ensures c !in t && ':' !in t
  {
  }

  /** A string splits into one piece exactly when the separator does not occur in it. */
  lemma {:induction false} SplitWithoutOnePiece(s: string, c: char)
    ensures |Split(s, c)| == 1 <==> c !in s
  {
    if s != [] {
      SplitWithoutOnePiece(s[1..], c);
    }
  }

  /** Every character of a piece is a character of the string. */
  lemma {:induction false} SplitHasSeparator(s: string, c: char)
    ensures forall i, k :: 0 <= i < |Split(s, c)| && 0 <= k < |Split(s, c)[i]| ==> Split(s, c)[i][k] in s
  {
    if s != [] {
      SplitHasSeparator(s[1..], c);
    }
  }

  /**
   * `url.length`: the number of characters, which no piece of the URL's split at `,` exceeds
   * and the payload after a first comma stays below.
   */
  function RawSize(url: string): (r: nat)
    ensures r == 0 <==> url == ""
    ensures forall i :: 0 <= i < |Split(url, ',')| ==> |Split(url, ',')[i]| <= r
    ensures forall i :: 1 <= i < |Split(url, ',')| ==> |Split(url, ',')[i]| < r
  {
    SplitPieceLengths(url, ',');
    |url|
  }

  /** `Math.round(x)`: the nearest integer, halves rounded up. */
  function RoundJs(x: real): int {
    (x + 0.5).Floor
  }

  /** `Math.round(url.split(',')[1].length * 3 / 4)` */
  function Size(url: string): (r: Result<nat>)
    ensures r.Err? <==> ',' !in url
    ensures r.Err? ==> r.error == ReadOfUndefined("length")
  {
    var pieces := Split(url, ',');
    SplitWithoutOnePiece(url, ',');
    if |pieces| < 2 then Err(ReadOfUndefined("length"))
    else
      var n := |pieces[1]|;
      RoundQuarter(n);
      Ok(RoundJs((3 * n) as real / 4.0))
  }

  /** Rounding three quarters of `n` is the integer quotient of `3n + 2` by 4. */
  lemma RoundQuarter(n: nat)
    ensures RoundJs((3 * n) as real / 4.0) == (3 * n + 2) / 4
  {
    var k := (3 * n + 2) / 4;
    var x := (3 * n) as real / 4.0 + 0.5;
    assert x == (3 * n + 2) as real / 4.0;
    assert 4 * k <= 3 * n + 2 < 4 * k + 4;
    assert k as real <= x < (k + 1) as real;
  }

  /** The pieces of a split are never longer than the string; later pieces are shorter. */
  lemma {:induction false} SplitPieceLengths(s: string, c: char)
    ensures forall i :: 0 <= i < |Split(s, c)| ==> |Split(s, c)[i]| <= |s|
    ensures forall i :: 1 <= i < |Split(s, c)| ==> |Split(s, c)[i]| < |s|
  {
    if s != [] {
      SplitPieceLengths(s[1..], c);
    }
  }

  /** The decoded size of a data URL with one comma: `(3n + 2) div 4` for a payload of length n. */
  lemma SizeOfPayload(head: string, payload: string)
    requires ',' !in head && ',' !in payload
    ensures Size(head + "," + payload) == Ok((3 * |payload| + 2) / 4)
  {
    SplitAtFirst(head, ',', payload);
    SplitWithout(payload, ',');
    RoundQuarter(|payload|);
  }

  /** The decoded size never exceeds the length of the URL. */
  lemma SizeBelowRawSize(url: string)
    requires Size(url).Ok?
    ensures Size(url).value < RawSize(url)
  {
    SplitPieceLengths(url, ',');
    var n := |Split(url, ',')[1]|;
    RoundQuarter(n);
    assert (3 * n + 2) / 4 <= n;
  }

  /** The type of `scheme:mime;params,payload` is `mime`. */
  lemma TypeWithParams(scheme: string, mime: string, params: string, payload: string)
    requires ',' !in scheme && ':' !in scheme
    requires ',' !in mime && ':' !in mime && ';' !in mime
    requires ',' !in params && ':' !in params
    ensures Type(scheme + ":" + mime + ";" + params + "," + payload) == Ok(mime)
  {
    var head := scheme + ":" + mime + ";" + params;
    assert ',' !in head;
    assert scheme + ":" + mime + ";" + params + "," + payload == head + [','] + payload;
    SplitAtFirst(head, ',', payload);
    assert head == scheme + [':'] + (mime + ";" + params);
    SplitAtFirst(scheme, ':', mime + ";" + params);
    var rest := mime + ";" + params;
    assert ':' !in rest;
    SplitWithout(rest, ':');
    assert rest == mime + [';'] + params;
    SplitAtFirst(mime, ';', params);
  }

  /** The type of `scheme:mime,payload` is `mime`. */
  lemma TypeWithoutParams(scheme: string, mime: string, payload: string)
    requires ',' !in scheme && ':' !in scheme
    requires ',' !in mime && ':' !in mime && ';' !in mime
    ensures Type(scheme + ":" + mime + "," + payload) == Ok(mime)
  {
    var head := scheme + ":" + mime;
    assert scheme + ":" + mime + "," + payload == head + [','] + payload;
    SplitAtFirst(head, ',', payload);
    assert head == scheme + [':'] + mime;
    SplitAtFirst(scheme, ':', mime);
    SplitWithout(mime, ':');
    SplitWithout(mime, ';');
  }

  /** The first piece of a split is the longest prefix without the separator. */
  lemma {:induction false} SplitFirstKeepsPrefix(p: string, s: string, c: char)
    requires c !in p
    ensures |Split(p + s, c)[0]| >= |p| && Split(p + s, c)[0][..|p|] == p
  {
    if p != [] {
      assert (p + s)[1..] == p[1..] + s;
      SplitFirstKeepsPrefix(p[1..], s, c);
      assert [p[0]] + p[1..] == p;
    }
  }

  /** Every string that starts with `data:` has a type. */
  lemma DataUrlHasType(url: string)
    requires IsDataPrefixed(url)
    ensures Type(url).Ok?
  {
    assert url == "data:" + url[5..];
    SplitFirstKeepsPrefix("data:", url[5..], ',');
    assert Split(url, ',')[0][4] == ':';
  }

  /** `$.dataURL.is(url, str)`; `str` is None when the call passes one argument. */
  function Is(url: Value, str: Option<string>): (b: bool)
    ensures b ==> url.Str? && IsDataPrefixed(url.s)
  {
    if !(url.Str? && IsDataPrefixed(url.s)) then false
    else
      DataUrlHasType(url.s);
      var t := Type(url.s).value;
      if str.Some? && str.value != "" && '/' !in str.value then StartsWith(t, str.value + "/")
      else if str.Some? then str.value == t
      else true
  }

  /** `/^p/.test(s)` for a literal `p`. */
  predicate StartsWith(s: string, p: string) {
    |p| <= |s| && s[..|p|] == p
  }

  /**
   * `is` against the type: a data URL as the one argument, a category `c` (no `/`) true
   * exactly when the type is `c/…`, a full type true exactly when equal.
   */
  lemma IsMeaning(url: string, str: Option<string>)
    requires IsDataPrefixed(url)
    ensures Type(url).Ok?
    ensures str.None? ==> Is(Str(url), str)
    ensures str.Some? && str.value != "" && '/' !in str.value ==>
      (Is(Str(url), str) <==> exists rest :: Type(url).value == str.value + "/" + rest)
    ensures str.Some? && (str.value == "" || '/' in str.value) ==>
      (Is(Str(url), str) <==> Type(url) == Ok(str.value))
  {
    DataUrlHasType(url);
    var t := Type(url).value;
    if str.Some? && str.value != "" && '/' !in str.value {
      var p := str.value + "/";
      if StartsWith(t, p) {
        assert t == str.value + "/" + t[|p|..];
      }
      forall rest | t == str.value + "/" + rest
        ensures StartsWith(t, p)
      {
        assert t[..|p|] == p;
      }
    }
  }

  /** Only strings that start with `data:` pass, whatever the second argument. */
  lemma IsRejectsNonDataUrls(url: Value, str: Option<string>)
    requires !url.Str? || !IsDataPrefixed(url.s)
    ensures !Is(url, str)
  {
  }

  /** The base64 payload of the one-pixel GIF the tests use, written in short pieces. */
  const GifPayload := "R0lGODlhAQABAIAAAAAAAP//" + "/yH5BAEAAAAALAAAAAABAAEA" + "AAIBRAA7"

  /** The one-pixel GIF data URL of the tests. */
  const TestGif := "data:image/gif;base64," + GifPayload

  /** The test GIF's payload has no comma. */
  lemma GifPayloadFacts()
    ensures ',' !in GifPayload && |GifPayload| == 56
  {
  }

  /** The test GIF's pieces: scheme, type, parameter and payload. */
  lemma TestGifPieces()
    ensures TestGif == "data" + ":" + "image/gif" + ";" + "base64" + "," + GifPayload
  {
  }

  /** The test GIF's head, before its first comma. */
  lemma TestGifHead()
    ensures TestGif == "data:image/gif;base64" + "," + GifPayload
    ensures ',' !in "data:image/gif;base64"
  {
  }

  /** The scheme, type and parameter of the test GIF hold no separator. */
  lemma TestGifFields()
    ensures ',' !in "data" && ':' !in "data" && ',' !in "base64" && ':' !in "base64"
    ensures ',' !in "image/gif" && ':' !in "image/gif" && ';' !in "image/gif"
  {
  }

  /** The test GIF: type `image/gif`, 78 characters, 42 bytes once decoded. */
  lemma TestGifFacts()
    ensures Type(TestGif) == Ok("image/gif")
    ensures RawSize(TestGif) == 78
    ensures Size(TestGif) == Ok(42)
  {
    GifPayloadFacts();
    assert Type(TestGif) == Ok("image/gif") by {
      TestGifPieces();
      TestGifFields();
      TypeWithParams("data", "image/gif", "base64", GifPayload);
    }
    assert Size(TestGif) == Ok(42) && |TestGif| == 78 by {
      TestGifHead();
      SizeOfPayload("data:image/gif;base64", GifPayload);
    }
  }

  /** The test vectors of `is`: null, a non-URL, the GIF as itself, as `image`, `image/gif`, not `image/png`. */
  lemma TestGifIs()
    ensures !Is(Null, None) && !Is(Str("wrong"), Some("image"))
    ensures Is(Str(TestGif), None)
    ensures Is(Str(TestGif), Some("image"))
    ensures Is(Str(TestGif), Some("image/gif"))
    ensures !Is(Str(TestGif), Some("image/png"))
  {
    TestGifFacts();
    assert StartsWith("image/gif", "image/");
  }

  /** The text `atob` is given: the piece after the first comma, or "undefined" when there is none. */
  function Payload(url: string): string {
    var pieces := Split(url, ',');
    if |pieces| >= 2 then pieces[1] else "undefined"
  }

  /** `new Uint8Array([...].map(charCodeAt))`: each code unit reduced modulo 256. */
  function Byte(c: char): bv8 {
    (c as int % 256) as bv8
  }

  /**
   * What `toBlob(url)` makes: the type of the URL as the Blob constructor normalises it, and
   * one byte per decoded character.
   */
  function BlobContent(url: string, atob: string -> Option<string>): (r: Result<(string, seq<bv8>)>)
    ensures Type(url).Err? ==> r == Err(Type(url).error)
    ensures Type(url).Ok? && atob(Payload(url)).None? ==> r == Err(InvalidCharacterError)
    ensures r.Ok? ==>
      Type(url).Ok? && r.value.0 == BlobType(Type(url).value) && atob(Payload(url)).Some? &&
      |r.value.1| == |atob(Payload(url)).value| &&
      forall i :: 0 <= i < |r.value.1| ==> r.value.1[i] == Byte(atob(Payload(url)).value[i])
  {
    match Type(url)
    case Err(e) => Err(e)
    case Ok(mime) =>
      match atob(Payload(url))
      case None => Err(InvalidCharacterError)
      case Some(binary) => Ok((BlobType(mime), seq(|binary|, i requires 0 <= i < |binary| => Byte(binary[i]))))
  }

  /** `$.dataURL.toBlob(url)`: the push loop over the decoded string, then `new Blob`. */
  method ToBlob(url: string, atob: string -> Option<string>) returns (r: Result<Blob>)
    ensures r.Ok? <==> BlobContent(url, atob).Ok?
    ensures r.Err? ==> r.error == BlobContent(url, atob).error
    ensures r.Ok? ==>
      fresh(r.value) && r.value.name == None &&
      (r.value.mime, r.value.bytes) == BlobContent(url, atob).value
  {
    var mime :- Type(url);
    var decoded := atob(Payload(url));
    if decoded.None? {
      return Err(InvalidCharacterError);
    }
    var binary := decoded.value;
    var codes: seq<bv8> := [];
    for i := 0 to |binary|
      invariant codes == seq(i, k requires 0 <= k < i => Byte(binary[k]))
    {
      codes := codes + [Byte(binary[i])];
    }
    var blob := new Blob(mime, codes, None);
    return Ok(blob);
  }

  /** The download name `save(url, name)` gives the link. */
  function SaveName(url: string, name: Option<string>): (r: string)
    ensures name.Some? && name.value != "" ==> r == name.value
    ensures (name.None? || name.value == "") && IsDataPrefixed(url) ==>
      Type(url).Ok? && |r| == |Type(url).value| &&
      ('/' !in Type(url).value ==> r == Type(url).value) &&
      forall k :: 0 <= k < |Type(url).value| && Type(url).value[k] == '/' && '/' !in Type(url).value[..k] ==>
        r == Type(url).value[..k] + "." + Type(url).value[k + 1..]
    ensures (name.None? || name.value == "") && !IsDataPrefixed(url) ==>
      '/' !in r && |r| <= |url| && url[|url| - |r|..] == r && (|r| == |url| || url[|url| - |r| - 1] == '/')
  {
    if name.Some? && name.value != "" then name.value
    else if IsDataPrefixed(url) then
      DataUrlHasType(url);
      var t := Type(url).value;
      SlashReplaced(t);
      ReplaceFirst(t, '/', '.')
    else
      var pieces := Split(url, '/');
      SplitPiecesLackSeparator(url, '/');
      SplitLastIsSuffix(url, '/');
      pieces[|pieces| - 1]
  }

  /** Replacing the first `/` by `.` changes that character alone, and a text without one not at all. */
  lemma SlashReplaced(t: string)
    ensures '/' !in t ==> ReplaceFirst(t, '/', '.') == t
    ensures forall k :: 0 <= k < |t| && t[k] == '/' && '/' !in t[..k] ==>
      ReplaceFirst(t, '/', '.') == t[..k] + "." + t[k + 1..]
  {
    if '/' !in t {
      ReplaceFirstAt(t, '/', '.', "");
    }
    forall k | 0 <= k < |t| && t[k] == '/' && '/' !in t[..k]
      ensures ReplaceFirst(t, '/', '.') == t[..k] + "." + t[k + 1..]
    {
      ReplaceFirstIndex(t, '/', '.', k);
    }
  }

  /**
   * The last piece of a split (what `split(...).pop()` returns) is the whole string when there
   * is one piece, and otherwise the suffix after the last separator.
   */
  lemma {:induction false} SplitLastIsSuffix(s: string, c: char)
    ensures var ps := Split(s, c); |ps| == 1 ==> ps[0] == s
    ensures var ps := Split(s, c); |ps| > 1 ==> SuffixAfter(s, ps[|ps| - 1], c)
  {
    if s != [] {
      var t := s[1..];
      SplitLastIsSuffix(t, c);
      var rest := Split(t, c);
      var last := rest[|rest| - 1];
      if s[0] == c {
        assert Split(s, c) == [""] + rest;
        if |rest| == 1 {
          assert s[|s| - |last|..] == t;
        } else {
          SuffixAfterCons(s, last, c);
        }
      } else {
        assert Split(s, c) == [[s[0]] + rest[0]] + rest[1..];
        if |rest| == 1 {
          assert s == [s[0]] + t;
        } else {
          SuffixAfterCons(s, last, c);
        }
      }
    }
  }

  /** `p` is what follows the last `c` of `s`: a suffix of `s` right after a `c`. */
  predicate SuffixAfter(s: string, p: string, c: char) {
    |p| < |s| && s[|s| - |p|..] == p && s[|s| - |p| - 1] == c
  }

  /** A suffix after a separator in the tail of `s` is one in `s` itself. */
  lemma SuffixAfterCons(s: string, p: string, c: char)
    requires |s| > 0 && SuffixAfter(s[1..], p, c)
    ensures SuffixAfter(s, p, c)
  {
    assert s[|s| - |p|..] == s[1..][|s| - 1 - |p|..];
    assert s[|s| - |p| - 1] == s[1..][|s| - 1 - |p| - 1];
  }

  /** The download name of the test GIF with no name given is `image.gif`. */
  lemma TestGifSaveName()
    ensures SaveName(TestGif, None) == "image.gif"
  {
    TestGifFacts();
    var t := "image/gif";
    assert t[5] == '/' && t[..5] == "image" && t[6..] == "gif";
    assert '/' !in t[..5];
    assert "image" + "." + "gif" == "image.gif";
  }

  /** `$.dataURL.fromCanvas(canvas, options)`: the arguments `canvas.toDataURL` receives. */
  function FromCanvas(canvas: CanvasRef, opts: Options): (r: Out)
    ensures r.Encoded? && r.canvas == canvas
    ensures r.call == EncoderArgs(opts.mimeType, opts.quality)
    ensures r.call.TypeAndQuality? <==> opts.mimeType == Some("image/jpeg") || opts.mimeType == Some("image/webp")
  {
    Encoded(canvas, EncoderArgs(opts.mimeType, opts.quality))
  }
}
