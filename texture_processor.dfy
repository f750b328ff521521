/**
 * The texture processor: a texture file with a supported suffix is
 * downscaled when it is larger than the configured maximum, written in the
 * format its suffix names (or WebP when conversion is on, or JPEG when the
 * suffix names a format that is not written), and embedded as a base64
 * data URI; running totals are kept per processor.
 */
module TextureProcessor {
  import opened Wrappers
  import opened Text
  import opened Base64

  // ---------------------------------------------------------------- suffixes

  /** The suffixes accepted, compared in lower case. */
  const SupportedFormats: set<string> := {".jpg", ".jpeg", ".png", ".webp", ".bmp"}

  /** The position of the last '.', or -1. */
  function LastDot(s: string): (i: int)
    ensures -1 <= i < |s|
    ensures i >= 0 ==> s[i] == '.'
    ensures forall k :: i < k < |s| ==> s[k] != '.'
    decreases |s|
  {
    if s == [] then -1
    else if s[|s| - 1] == '.' then |s| - 1
    else LastDot(s[..|s| - 1])
  }

  /** The suffix of a file name: from its last '.', unless that dot starts
      the name or ends it, in which case there is none. */
  function Suffix(name: string): string {
    var i := LastDot(name);
    if 0 < i < |name| - 1 then name[i..] else ""
  }

  /** A suffix is a dot and at least one more character, none a dot. */
  predicate IsExtension(ext: string) {
    |ext| >= 2 && ext[0] == '.' && forall k :: 1 <= k < |ext| ==> ext[k] != '.'
  }

  /** A non-empty stem followed by an extension has that extension as its
      suffix. */
  lemma SuffixOf(stem: string, ext: string)
    requires stem != [] && IsExtension(ext)
    ensures Suffix(stem + ext) == ext
  {
    var name := stem + ext;
    var i := LastDot(name);
    assert name[|stem|] == '.';
    assert name[|stem|..] == ext;
  }

  /** A suffix, when there is one, is an extension that ends the name after
      a non-empty stem. */
  lemma SuffixShape(name: string)
    ensures Suffix(name) == "" || (IsExtension(Suffix(name)) &&
      |Suffix(name)| < |name| && name == name[..|name| - |Suffix(name)|] + Suffix(name))
  {
    var i := LastDot(name);
    if 0 < i < |name| - 1 {
      assert name == name[..i] + name[i..];
    }
  }

  predicate IsSupported(name: string) {
    Lower(Suffix(name)) in SupportedFormats
  }

  // ---------------------------------------------------------------- formats

  datatype Format = Jpeg | Png | Webp

  function FormatName(f: Format): string {
    match f
    case Jpeg => "jpeg"
    case Png => "png"
    case Webp => "webp"
  }

  /** The MIME type of a format. */
  function Mime(f: Format): string {
    "image/" + FormatName(f)
  }

  /** The processor's settings, fixed at construction. */
  datatype Settings = Settings(maxResolution: Option<int>, convertToWebp: bool,
                               jpegQuality: int, webpQuality: int)

  /** The output format chosen for a texture, with its MIME type, the
      quality passed to the encoder, and whether the format was changed. */
  datatype Encoding = Encoding(format: Format, mime: string, quality: Option<int>, converted: bool)

  function ChooseEncoding(settings: Settings, ext: string): Encoding {
    if settings.convertToWebp then Encoding(Webp, "image/webp", Some(settings.webpQuality), true)
    else if ext == ".jpg" || ext == ".jpeg" then Encoding(Jpeg, "image/jpeg", Some(settings.jpegQuality), false)
    else if ext == ".png" then Encoding(Png, "image/png", None, false)
    else if ext == ".webp" then Encoding(Webp, "image/webp", Some(settings.webpQuality), false)
    else Encoding(Jpeg, "image/jpeg", Some(settings.jpegQuality), true)
  }

  /** The format a lower-case suffix names, when it is one that is written. */
  function NativeFormat(ext: string): Option<Format> {
    if ext == ".jpg" || ext == ".jpeg" then Some(Jpeg)
    else if ext == ".png" then Some(Png)
    else if ext == ".webp" then Some(Webp)
    else None
  }

  /** The quality setting each format is written with; PNG takes none. */
  function QualityFor(settings: Settings, f: Format): Option<int> {
    match f
    case Jpeg => Some(settings.jpegQuality)
    case Png => None
    case Webp => Some(settings.webpQuality)
  }

  lemma MimeTypes()
    ensures Mime(Jpeg) == "image/jpeg" && Mime(Png) == "image/png" && Mime(Webp) == "image/webp"
  {
  }

  /**
   * The format table: the MIME type and the quality always go with the
   * format; conversion to WebP overrides the suffix; otherwise the suffix's
   * own format is kept, and a suffix with no written format gives JPEG; a
   * texture counts as converted exactly when the WebP flag is on or its
   * suffix has no written format, so a `.webp` file with the flag keeps
   * its format and still counts as converted.
   */
  lemma EncodingTable(settings: Settings, ext: string)
    ensures var e := ChooseEncoding(settings, ext);
      && e.mime == Mime(e.format)
      && e.quality == QualityFor(settings, e.format)
      && (e.converted <==> settings.convertToWebp || NativeFormat(ext) == None)
      && (settings.convertToWebp ==> e.format == Webp)
      && (!settings.convertToWebp && NativeFormat(ext).Some? ==> e.format == NativeFormat(ext).value)
      && (!settings.convertToWebp && NativeFormat(ext) == None ==> e.format == Jpeg)
  {
    MimeTypes();
  }

  // ---------------------------------------------------------------- sizes

  function Max(a: nat, b: nat): nat {
    if a >= b then a else b
  }

  /**
   * The size a texture is scaled to: unchanged when it fits; otherwise the
   * longer side (the height when both are equal) becomes maxSize and the
   * other is scaled by the same ratio, rounded down.
   */
  function Downscale(width: nat, height: nat, maxSize: nat): (nat, nat) {
    if Max(width, height) <= maxSize then (width, height)
    else if width > height then (maxSize, Scale(height, maxSize, width))
    else (Scale(width, maxSize, height), maxSize)
  }

  /** side * maxSize / longer, rounded down. */
  function Scale(side: nat, maxSize: nat, longer: nat): nat
    requires longer > 0
  {
    var p: nat := Product(side, maxSize);
    p / longer
  }

  function Product(a: nat, b: nat): (p: nat) {
    a * b
  }

  lemma ScaleLe(side: nat, maxSize: nat, longer: nat)
    requires side <= longer && maxSize < longer
    ensures Scale(side, maxSize, longer) <= side && Scale(side, maxSize, longer) <= maxSize
  {
    var s := Scale(side, maxSize, longer);
    ScaleRounds(side, maxSize, longer);
    MulLe(maxSize, longer, side);
    MulLe(side, longer, maxSize);
    MulCancel(s, side, longer);
    MulCancel(s, maxSize, longer);
  }

  lemma MulLe(a: nat, b: nat, c: nat)
    requires a <= b
    ensures a * c <= b * c
  {
  }

  lemma MulCancel(a: nat, b: nat, c: nat)
    requires c > 0 && a * c <= b * c
    ensures a <= b
  {
  }

  /** A scaled texture fits, has maxSize as its longer side, and is no larger
      than the original on either side. */
  lemma DownscaleFits(width: nat, height: nat, maxSize: nat)
    ensures var r := Downscale(width, height, maxSize);
      && r.0 <= width && r.1 <= height
      && (Max(width, height) <= maxSize ==> r == (width, height))
      && (Max(width, height) > maxSize ==> Max(r.0, r.1) == maxSize)
  {
    if Max(width, height) > maxSize {
      if width > height {
        ScaleLe(height, maxSize, width);
      } else {
        ScaleLe(width, maxSize, height);
      }
    }
  }

  /** The shorter side keeps the aspect ratio to within one pixel: it is the
      largest whole number not above side * maxSize / longer. */
  lemma DownscaleRatio(width: nat, height: nat, maxSize: nat)
    requires Max(width, height) > maxSize
    ensures var r := Downscale(width, height, maxSize);
      && (width > height ==> r.1 * width <= height * maxSize < (r.1 + 1) * width)
      && (width <= height ==> r.0 * height <= width * maxSize < (r.0 + 1) * height)
  {
    if width > height {
      ScaleRounds(height, maxSize, width);
    } else {
      ScaleRounds(width, maxSize, height);
    }
  }

  /** Scale is the largest whole number whose multiple stays within the product. */
  lemma ScaleRounds(side: nat, maxSize: nat, longer: nat)
    requires longer > 0
    ensures var s := Scale(side, maxSize, longer);
      s * longer <= side * maxSize < (s + 1) * longer
  {
    var p := side * maxSize;
    var s := p / longer;
    assert p == s * longer + p % longer;
  }

  /** A very narrow texture is scaled to a side of zero pixels, which the
      image library refuses. */
  lemma DownscaleToZero(settings: Settings)
    requires settings.maxResolution == Some(2048)
    ensures Downscale(5000, 1, 2048) == (2048, 0)
    ensures OutputSize(settings, 5000, 1) == None
  {
  }

  /** Whether a texture is scaled: a maximum is set, is not zero (Python
      tests it for truth), and the longer side exceeds it.  Every texture
      exceeds a negative maximum. */
  predicate ShouldDownscale(settings: Settings, width: nat, height: nat) {
    settings.maxResolution.Some? && settings.maxResolution.value != 0 &&
    Max(width, height) > settings.maxResolution.value
  }

  /** The error the image library raises when asked to resize an image to
      a side below one pixel. */
  const ResizeRefused := "height and width must be > 0"

  /** The size a texture is written at, or None when the image library
      refuses the size it is asked to scale to: a negative maximum becomes
      the longer side, and a shorter side can be rounded down to zero. */
  function OutputSize(settings: Settings, width: nat, height: nat): Option<(nat, nat)> {
    if !ShouldDownscale(settings, width, height) then Some((width, height))
    else if settings.maxResolution.value < 0 then None
    else
      var r := Downscale(width, height, settings.maxResolution.value);
      if r.0 == 0 || r.1 == 0 then None else Some(r)
  }

  // ---------------------------------------------------------------- data URIs

  /** A data URI with a base64 payload. */
  function DataUri(mime: string, payload: seq<Byte>): string {
    "data:" + mime + ";base64," + Encode(payload)
  }

  /** The position of the first ';', or |s|. */
  function FirstSemicolon(s: string): (i: nat)
    ensures i <= |s| && (i < |s| ==> s[i] == ';') && forall k :: 0 <= k < i ==> s[k] != ';'
    decreases |s|
  {
    if s == [] || s[0] == ';' then 0 else 1 + FirstSemicolon(s[1..])
  }

  /** How a reader takes a base64 data URI apart into its MIME type and its
      payload. */
  function ParseDataUri(u: string): Option<(string, seq<Byte>)> {
    if !HasPrefix(u, "data:") then None
    else
      var rest := u[5..];
      var i := FirstSemicolon(rest);
      if !HasPrefix(rest[i..], ";base64,") then None
      else match Decode(rest[i..][8..])
        case Some(bytes) => Some((rest[..i], bytes))
        case None => None
  }

  /** A data URI gives back its MIME type and its payload. */
  lemma DataUriRoundTrip(mime: string, payload: seq<Byte>)
    requires ';' !in mime
    ensures ParseDataUri(DataUri(mime, payload)) == Some((mime, payload))
  {
    var body := Encode(payload);
    var u := DataUri(mime, payload);
    assert u == "data:" + (mime + (";base64," + body));
    assert u[..5] == "data:";
    var rest := u[5..];
    assert rest == mime + (";base64," + body);
    assert rest[|mime|] == ';';
    assert FirstSemicolon(rest) == |mime|;
    assert rest[..|mime|] == mime;
    assert rest[|mime|..] == ";base64," + body;
    assert (";base64," + body)[..8] == ";base64,";
    assert (";base64," + body)[8..] == body;
    RoundTrip(payload);
  }

  /** The length of a data URI: the header, the MIME type and four
      characters for each group of three payload bytes. */
  lemma DataUriLength(mime: string, payload: seq<Byte>)
    ensures |DataUri(mime, payload)| == 13 + |mime| + 4 * ((|payload| + 2) / 3)
  {
    EncodeLength(payload);
  }

  // ---------------------------------------------------------------- processing

  /** A texture file: its name, its size in bytes and its pixel size. */
  datatype TextureFile = TextureFile(name: string, size: nat, width: nat, height: nat)

  /** The image library's writer: the bytes of a texture written at a size,
      in a format, with a quality. */
  type Encoder = (TextureFile, nat, nat, Format, Option<int>) -> seq<Byte>

  /** What processing a texture reports. */
  datatype Processed = Processed(
    dataUri: string, originalSize: nat, encodedSize: nat, format: Format,
    dimensions: (nat, nat), downscaled: bool, converted: bool,
    originalDimensions: (nat, nat))

  function Process(settings: Settings, f: TextureFile, save: Encoder): Result<Processed, string> {
    var ext := Lower(Suffix(f.name));
    if ext !in SupportedFormats then Err("Unsupported image format: " + Suffix(f.name))
    else if OutputSize(settings, f.width, f.height).None? then Err(ResizeRefused)
    else
      var size := OutputSize(settings, f.width, f.height).value;
      var e := ChooseEncoding(settings, ext);
      var uri := DataUri(e.mime, save(f, size.0, size.1, e.format, e.quality));
      Ok(Processed(uri, f.size, |uri|, e.format, size,
        ShouldDownscale(settings, f.width, f.height), e.converted, (f.width, f.height)))
  }

  /** Whether a texture is processed: its suffix is supported and the
      image library accepts the size it is scaled to. */
  predicate Accepted(settings: Settings, f: TextureFile) {
    IsSupported(f.name) && OutputSize(settings, f.width, f.height).Some?
  }

  /** A texture is rejected exactly when its suffix is not supported or the
      size it is scaled to has a side below one pixel. */
  lemma ProcessRejects(settings: Settings, f: TextureFile, save: Encoder)
    ensures Process(settings, f, save).Err? <==> !Accepted(settings, f)
    ensures Process(settings, f, save).Err? && IsSupported(f.name) ==>
      && Process(settings, f, save).error == ResizeRefused
      && ShouldDownscale(settings, f.width, f.height)
      && (settings.maxResolution.value < 0 ||
          Downscale(f.width, f.height, settings.maxResolution.value).0 == 0 ||
          Downscale(f.width, f.height, settings.maxResolution.value).1 == 0)
  {
  }

  /** A negative maximum fails every supported texture, after its file size
      has been added to the totals. */
  lemma NegativeMaxFails(s: Stats, settings: Settings, f: TextureFile, save: Encoder)
    requires settings.maxResolution.Some? && settings.maxResolution.value < 0
    requires IsSupported(f.name)
    ensures Process(settings, f, save) == Err(ResizeRefused)
    ensures RecordResult(s, settings, f, Process(settings, f, save)) ==
      s.(totalOriginalSize := s.totalOriginalSize + f.size)
  {
  }

  /** A processed texture fits the configured maximum, is scaled only when
      it did not fit, and keeps its size otherwise. */
  lemma ProcessFits(settings: Settings, f: TextureFile, save: Encoder)
    requires Process(settings, f, save).Ok?
    ensures var p := Process(settings, f, save).value;
      && p.originalDimensions == (f.width, f.height)
      && (p.downscaled <==> ShouldDownscale(settings, f.width, f.height))
      && (!p.downscaled ==> p.dimensions == (f.width, f.height))
      && (settings.maxResolution.Some? && settings.maxResolution.value > 0 ==>
            Max(p.dimensions.0, p.dimensions.1) <= settings.maxResolution.value)
  {
    if ShouldDownscale(settings, f.width, f.height) {
      DownscaleFits(f.width, f.height, settings.maxResolution.value);
    }
  }

  /** The data URI of a processed texture carries the MIME type of its
      format and the encoder's bytes for it, and its length is the encoded
      size reported. */
  lemma ProcessUri(settings: Settings, f: TextureFile, save: Encoder)
    requires Process(settings, f, save).Ok?
    ensures var p := Process(settings, f, save).value;
      && p.encodedSize == |p.dataUri|
      && ParseDataUri(p.dataUri) ==
           Some((Mime(p.format), save(f, p.dimensions.0, p.dimensions.1, p.format,
                                      QualityFor(settings, p.format))))
  {
    var ext := Lower(Suffix(f.name));
    var e := ChooseEncoding(settings, ext);
    EncodingTable(settings, ext);
    var size := OutputSize(settings, f.width, f.height).value;
    assert ';' !in e.mime by {
      MimeTypes();
    }
    DataUriRoundTrip(e.mime, save(f, size.0, size.1, e.format, e.quality));
  }

  // ---------------------------------------------------------------- totals

  /** The running totals of a processor. */
  datatype Stats = Stats(processed: nat, totalOriginalSize: nat, totalEncodedSize: nat,
                         downscaledCount: nat, convertedCount: nat)

  const NoStats := Stats(0, 0, 0, 0, 0)

  /** The totals after a texture is processed. Only conversion to WebP is
      counted as a conversion; a texture rewritten as JPEG is not. */
  function Record(s: Stats, settings: Settings, p: Processed): Stats {
    Stats(s.processed + 1, s.totalOriginalSize + p.originalSize,
          s.totalEncodedSize + p.encodedSize,
          s.downscaledCount + (if p.downscaled then 1 else 0),
          s.convertedCount + (if settings.convertToWebp then 1 else 0))
  }

  /** A texture rewritten as JPEG reports a conversion that the totals do
      not count. */
  lemma ConvertedNotCounted(s: Stats, settings: Settings, f: TextureFile, save: Encoder)
    requires !settings.convertToWebp && Lower(Suffix(f.name)) == ".bmp"
    requires OutputSize(settings, f.width, f.height).Some?
    ensures Process(settings, f, save).Ok? && Process(settings, f, save).value.converted
    ensures RecordResult(s, settings, f, Process(settings, f, save)).convertedCount == s.convertedCount
  {
  }

  /** The totals after texture f gave r.  A texture rejected for its suffix
      changes nothing; one that fails later has already added its file size
      to the original total, and nothing else. */
  function RecordResult(s: Stats, settings: Settings, f: TextureFile, r: Result<Processed, string>): Stats {
    if r.Ok? then Record(s, settings, r.value)
    else if IsSupported(f.name) then s.(totalOriginalSize := s.totalOriginalSize + f.size)
    else s
  }

  /** The totals after a list of textures. */
  function BatchStats(s: Stats, settings: Settings, files: seq<TextureFile>, save: Encoder): Stats
    decreases |files|
  {
    if files == [] then s
    else
      var n := |files| - 1;
      RecordResult(BatchStats(s, settings, files[..n], save), settings, files[n], Process(settings, files[n], save))
  }

  /** Processing with fixed settings and encoder, as a function of the file. */
  function Processor(settings: Settings, save: Encoder): TextureFile -> Result<Processed, string> {
    f => Process(settings, f, save)
  }

  /** The results of a list of textures by file name; a later file of the
      same name replaces an earlier one. */
  function ByName<R>(files: seq<TextureFile>, proc: TextureFile -> R): map<string, R>
    decreases |files|
  {
    if files == [] then map[]
    else
      var n := |files| - 1;
      ByName(files[..n], proc)[files[n].name := proc(files[n])]
  }

  lemma ByNameSnoc<R>(files: seq<TextureFile>, i: nat, proc: TextureFile -> R)
    requires i < |files|
    ensures ByName(files[..i + 1], proc) == ByName(files[..i], proc)[files[i].name := proc(files[i])]
  {
    assert files[..i + 1][..i] == files[..i];
  }

  lemma BatchStatsSnoc(s: Stats, settings: Settings, files: seq<TextureFile>, i: nat, save: Encoder)
    requires i < |files|
    ensures BatchStats(s, settings, files[..i + 1], save) ==
      RecordResult(BatchStats(s, settings, files[..i], save), settings, files[i], Process(settings, files[i], save))
  {
    assert files[..i + 1][..i] == files[..i];
  }

  /** The number of files that are processed. */
  function CountAccepted(settings: Settings, files: seq<TextureFile>): nat
    decreases |files|
  {
    if files == [] then 0
    else CountAccepted(settings, files[..|files| - 1]) + (if Accepted(settings, files[|files| - 1]) then 1 else 0)
  }

  /** The total file size of the files with a supported suffix. */
  function SupportedSize(files: seq<TextureFile>): nat
    decreases |files|
  {
    if files == [] then 0
    else SupportedSize(files[..|files| - 1]) + (if IsSupported(files[|files| - 1].name) then files[|files| - 1].size else 0)
  }

  /** Every processed texture is counted once; every texture with a
      supported suffix adds its file size to the original total, even when
      it then fails; no other texture changes the totals. */
  lemma {:induction false} BatchCounts(s: Stats, settings: Settings, files: seq<TextureFile>, save: Encoder)
    ensures BatchStats(s, settings, files, save).processed == s.processed + CountAccepted(settings, files)
    ensures BatchStats(s, settings, files, save).totalOriginalSize == s.totalOriginalSize + SupportedSize(files)
    ensures BatchStats(s, settings, files, save).totalEncodedSize >= s.totalEncodedSize
    decreases |files|
  {
    if files != [] {
      var n := |files| - 1;
      BatchCounts(s, settings, files[..n], save);
      ProcessRejects(settings, files[n], save);
    }
  }

  /** The results hold one entry per file name. */
  lemma {:induction false} ByNameKeys<R>(files: seq<TextureFile>, proc: TextureFile -> R)
    ensures ByName(files, proc).Keys == set i | 0 <= i < |files| :: files[i].name
    decreases |files|
  {
    if files != [] {
      var n := |files| - 1;
      ByNameKeys(files[..n], proc);
      var a := set i | 0 <= i < n :: files[..n][i].name;
      var b := set i | 0 <= i < |files| :: files[i].name;
      assert a == set i | 0 <= i < n :: files[i].name;
      assert b == a + {files[n].name};
    }
  }

  /** The entry for a name is the result of the last file of that name. */
  lemma {:induction false} ByNameLast<R>(files: seq<TextureFile>, proc: TextureFile -> R, i: nat)
    requires i < |files|
    requires forall j :: i < j < |files| ==> files[j].name != files[i].name
    ensures files[i].name in ByName(files, proc)
    ensures ByName(files, proc)[files[i].name] == proc(files[i])
    decreases |files|
  {
    var n := |files| - 1;
    if i < n {
      var p := files[..n];
      assert p[i] == files[i];
      forall j | i < j < |p| ensures p[j].name != p[i].name {
        assert p[j] == files[j];
      }
      ByNameLast(p, proc, i);
    }
  }

  // ---------------------------------------------------------------- the processor

  class TextureProcessor {
    const settings: Settings
    var stats: Stats

    constructor(maxResolution: Option<int>, convertToWebp: bool, jpegQuality: int, webpQuality: int)
      ensures settings == Settings(maxResolution, convertToWebp, jpegQuality, webpQuality)
      ensures stats == NoStats
    {
      settings := Settings(maxResolution, convertToWebp, jpegQuality, webpQuality);
      stats := NoStats;
    }

    /** Processes one texture and adds it to the totals; the totals change
        as processing goes, so a texture that fails after its suffix was
        accepted leaves its file size counted. */
    method ProcessTexture(f: TextureFile, save: Encoder) returns (r: Result<Processed, string>)
      modifies this
      ensures r == Process(settings, f, save)
      ensures stats == RecordResult(old(stats), settings, f, r)
    {
      var ext := Lower(Suffix(f.name));
      if ext !in SupportedFormats {
        return Err("Unsupported image format: " + Suffix(f.name));
      }
      stats := stats.(totalOriginalSize := stats.totalOriginalSize + f.size);
      var width, height := f.width, f.height;
      var downscaled := false;
      if settings.maxResolution.Some? && settings.maxResolution.value != 0 &&
         Max(width, height) > settings.maxResolution.value {
        var maxSize := settings.maxResolution.value;
        if maxSize < 0 {
          return Err(ResizeRefused);
        }
        var size := Downscale(width, height, maxSize);
        if size.0 == 0 || size.1 == 0 {
          return Err(ResizeRefused);
        }
        width, height := size.0, size.1;
        downscaled := true;
        stats := stats.(downscaledCount := stats.downscaledCount + 1);
      }
      assert Some((width, height)) == OutputSize(settings, f.width, f.height);
      assert downscaled == ShouldDownscale(settings, f.width, f.height);
      var e := ChooseEncoding(settings, ext);
      if settings.convertToWebp {
        stats := stats.(convertedCount := stats.convertedCount + 1);
      }
      var uri := DataUri(e.mime, save(f, width, height, e.format, e.quality));
      stats := stats.(totalEncodedSize := stats.totalEncodedSize + |uri|);
      stats := stats.(processed := stats.processed + 1);
      r := Ok(Processed(uri, f.size, |uri|, e.format, (width, height), downscaled,
                        e.converted, (f.width, f.height)));
      assert r == Process(settings, f, save);
    }

    /** Processes textures in order; each result is kept under its file
        name. */
    method ProcessTexturesBatch(files: seq<TextureFile>, save: Encoder)
      returns (results: map<string, Result<Processed, string>>)
      modifies this
      ensures results == ByName(files, Processor(settings, save))
      ensures stats == BatchStats(old(stats), settings, files, save)
    {
      results := map[];
      for i := 0 to |files|
        invariant results == ByName(files[..i], Processor(settings, save))
        invariant stats == BatchStats(old(stats), settings, files[..i], save)
      {
        ByNameSnoc(files, i, Processor(settings, save));
        BatchStatsSnoc(old(stats), settings, files, i, save);
        var r := ProcessTexture(files[i], save);
        results := results[files[i].name := r];
      }
      assert files[..|files|] == files;
    }
  }

}
