/**
 * The Volcano Engine (Seedream) image tools
 * (backend/app/tools/volcano_image_generation.py): the size parameter,
 * local image input as a data URL, the image URLs in the provider's answer,
 * the download loop and the JSON result of both tools. The HTTP exchange is
 * a parameter.
 */
module Volcano {
  import opened Common
  import opened PyPath
  import opened ImageFiles

  // ---------------------------------------------------------------------
  // parse_size
  // ---------------------------------------------------------------------

  /** Aspect ratios and the pixel sizes they stand for. */
  const AspectRatios: map<string, (int, int)> := map[
    "1:1" := (2048, 2048),
    "4:3" := (2304, 1728),
    "3:4" := (1728, 2304),
    "16:9" := (2560, 1440),
    "9:16" := (1440, 2560),
    "3:2" := (2496, 1664),
    "2:3" := (1664, 2496),
    "21:9" := (3024, 1296)
  ]

  /** The size names the API takes as they are. */
  const SizeTokens: seq<string> := ["2K", "4K", "1K"]

  /** A size the API accepts: a named resolution, or width and height in pixels. */
  datatype Size = Token(name: string) | Pixels(width: int, height: int)

  /** The text sent to the API: the name, or `f"{width}x{height}"`. */
  function Render(size: Size): string {
    match size
    case Token(name) => name
    case Pixels(w, h) => Show(w) + "x" + Show(h)
  }

  /** The `WxH` form: exactly two parts around one 'x' or 'X', each an integer after stripping. */
  function CustomSize(size: string): Option<Size> {
    if 'x' in size || 'X' in size then
      var parts := Split(ReplaceChar(size, 'X', 'x'), 'x');
      if |parts| == 2 then
        var w := ParseInt(Strip(parts[0]));
        var h := ParseInt(Strip(parts[1]));
        if w.Some? && h.Some? then Some(Pixels(w.value, h.value)) else None
      else None
    else None
  }

  /** What `parse_size` makes of its argument: a token, a ratio, a custom size, or the 1:1 default. */
  function SizeOf(size: string): Size {
    if Upper(size) in SizeTokens then Token(Upper(size))
    else if size in AspectRatios then Pixels(AspectRatios[size].0, AspectRatios[size].1)
    else
      var custom := CustomSize(size);
      if custom.Some? then custom.value else Pixels(AspectRatios["1:1"].0, AspectRatios["1:1"].1)
  }

  /** `parse_size`. */
  function ParseSize(size: string): string {
    Render(SizeOf(size))
  }

  lemma NoColonInTokens()
    ensures forall t :: t in SizeTokens ==> ':' !in t && 'X' !in t
  {
    assert SizeTokens == ["2K", "4K", "1K"];
  }

  lemma ColonInRatios()
    ensures forall k :: k in AspectRatios ==> ':' in k
  {
    assert AspectRatios.Keys == {"1:1", "4:3", "3:4", "16:9", "9:16", "3:2", "2:3", "21:9"};
    assert "1:1"[1] == ':' && "4:3"[1] == ':' && "3:4"[1] == ':' && "16:9"[2] == ':';
    assert "9:16"[1] == ':' && "3:2"[1] == ':' && "2:3"[1] == ':' && "21:9"[2] == ':';
  }

  /** The tokens are already upper case. */
  lemma TokensUpper()
    ensures forall t :: t in SizeTokens ==> Upper(t) == t
  {
    assert Upper("2K") == "2K";
    assert Upper("4K") == "4K";
    assert Upper("1K") == "1K";
  }

  /** A letter-case variant of a token is read as that token. */
  lemma TokenAnyCase(token: string, size: string)
    requires token in SizeTokens
    requires Lower(size) == Lower(token)
    ensures ParseSize(size) == token
  {
    TokensUpper();
    assert |size| == |token|;
    forall i | 0 <= i < |size|
      ensures UpperChar(size[i]) == token[i]
    {
      assert LowerChar(size[i]) == LowerChar(token[i]);
      assert token[i] in "124K";
    }
    assert Upper(size) == token;
  }

  /** Each aspect ratio is sent as its fixed pixel size. */
  lemma RatioSize(key: string)
    requires key in AspectRatios
    ensures SizeOf(key) == Pixels(AspectRatios[key].0, AspectRatios[key].1)
  {
    ColonInRatios();
    NoColonInTokens();
    var i :| 0 <= i < |key| && key[i] == ':';
    assert Upper(key)[i] == ':';
  }

  /** Text with an 'x' or 'X' in it is no token. */
  lemma NotToken(s: string, i: int)
    requires 0 <= i < |s| && (s[i] == 'x' || s[i] == 'X')
    ensures Upper(s) !in SizeTokens
  {
    NoColonInTokens();
    assert Upper(s)[i] == 'X';
  }

  /** Text without ':' is no aspect ratio. */
  lemma NotRatio(s: string)
    requires ':' !in s
    ensures s !in AspectRatios
  {
    ColonInRatios();
  }

  /** `Show(n)` holds neither 'x', 'X' nor ':'. */
  lemma ShowPlain(n: int)
    ensures 'x' !in Show(n) && 'X' !in Show(n) && ':' !in Show(n)
  {
    var s := Show(n);
    assert forall i :: 0 <= i < |s| ==> s[i] != 'x' && s[i] != 'X' && s[i] != ':';
  }

  /** A number as `str()` writes it has no separator or colon, and `int()` reads it back after stripping. */
  lemma ShownSide(n: int)
    ensures 'x' !in Show(n) && 'X' !in Show(n) && ':' !in Show(n)
    ensures ParseInt(Strip(Show(n))) == Some(n)
  {
    ShowPlain(n);
    StripOfDigits(Show(n));
    ParseIntShow(n);
  }

  /** "W" + 'x' or 'X' + "H" is read back as W by H. */
  lemma CustomRoundTrip(w: int, h: int, sep: char)
    requires sep == 'x' || sep == 'X'
    ensures SizeOf(Show(w) + [sep] + Show(h)) == Pixels(w, h)
  {
    ShownSide(w);
    ShownSide(h);
    SizeOfSides(Show(w), Show(h), sep, w, h);
  }

  /** Two sides free of separators and colons that `int()` reads, around one separator, are no token and no ratio but a custom size. */
  lemma SizeOfSides(left: string, right: string, sep: char, w: int, h: int)
    requires sep == 'x' || sep == 'X'
    requires 'x' !in left && 'X' !in left && ':' !in left
    requires 'x' !in right && 'X' !in right && ':' !in right
    requires ParseInt(Strip(left)) == Some(w) && ParseInt(Strip(right)) == Some(h)
    ensures SizeOf(left + [sep] + right) == Pixels(w, h)
  {
    var s := left + [sep] + right;
    NotToken(s, |left|);
    assert forall c :: c in s ==> c in left || c == sep || c in right;
    NotRatio(s);
    CustomOfSides(left, right, sep, w, h);
  }

  /** Reading what `parse_size` writes gives the same size. */
  lemma RenderRoundTrip(size: Size)
    requires size.Token? ==> size.name in SizeTokens
    ensures SizeOf(Render(size)) == size
  {
    match size
    case Token(name) =>
      TokensUpper();
    case Pixels(w, h) =>
      CustomRoundTrip(w, h, 'x');
  }

  /** `parse_size` is idempotent: its output is a fixed point. */
  lemma ParseSizeIdempotent(size: string)
    ensures ParseSize(ParseSize(size)) == ParseSize(size)
  {
    RenderRoundTrip(SizeOf(size));
  }

  lemma Show2048()
    ensures Show(2048) == "2048"
  {
    ShowFourDigits(2, 0, 4, 8);
  }

  /** Text that is no token, no ratio and no `WxH` falls back to 1:1, "2048x2048". */
  lemma DefaultSize(size: string)
    requires Upper(size) !in SizeTokens && size !in AspectRatios && CustomSize(size).None?
    ensures ParseSize(size) == "2048x2048"
  {
    Show2048();
  }

  /** Three parts are no custom size: "1x2x3" falls back to the default. */
  lemma DefaultOfThreeParts()
    ensures ParseSize("1x2x3") == "2048x2048"
  {
    NotToken("1x2x3", 1);
    NotRatio("1x2x3");
    ThreeParts();
    DefaultSize("1x2x3");
  }

  lemma ThreeParts()
    ensures |Split(ReplaceChar("1x2x3", 'X', 'x'), 'x')| == 3
  {
    assert ReplaceChar("1x2x3", 'X', 'x') == "1x2x3";
    assert "1x2x3" == "1" + ['x'] + ("2" + ['x'] + "3");
    SplitThree("1", "2", "3", 'x');
  }

  lemma SplitThree(a: string, b: string, c: string, sep: char)
    requires sep !in a && sep !in b && sep !in c
    ensures Split(a + [sep] + (b + [sep] + c), sep) == [a, b, c]
  {
    SplitHead(a, b + [sep] + c, sep);
    SplitTwo(b, c, sep);
  }

  /** An empty side is no integer: "2x" falls back to the default. */
  lemma DefaultOfMissingHeight()
    ensures ParseSize("2x") == "2048x2048"
  {
    NotToken("2x", 1);
    NotRatio("2x");
    assert ReplaceChar("2x", 'X', 'x') == "2x";
    assert "2x" == "2" + ['x'] + "";
    SplitTwo("2", "", 'x');
    assert Strip("") == "";
    DefaultSize("2x");
  }

  /** One side of a padded size: no separator or colon in it, and `int()` reads its number after stripping. */
  lemma PaddedSide(a: string, n: int, b: string)
    requires forall i :: 0 <= i < |a| ==> IsSpace(a[i])
    requires forall i :: 0 <= i < |b| ==> IsSpace(b[i])
    ensures var side := a + Show(n) + b;
      'x' !in side && 'X' !in side && ':' !in side && ParseInt(Strip(side)) == Some(n)
  {
    var side := a + Show(n) + b;
    ShowPlain(n);
    assert forall k :: 0 <= k < |side| ==> side[k] != 'x' && side[k] != 'X' && side[k] != ':';
    StripPadded(a, Show(n), b);
    StripOfDigits(Show(n));
    ParseIntShow(n);
  }

  /** Two sides that `int()` reads, around one separator, are a custom size. */
  lemma CustomOfSides(left: string, right: string, sep: char, w: int, h: int)
    requires sep == 'x' || sep == 'X'
    requires 'x' !in left && 'X' !in left && 'x' !in right && 'X' !in right
    requires ParseInt(Strip(left)) == Some(w) && ParseInt(Strip(right)) == Some(h)
    ensures CustomSize(left + [sep] + right) == Some(Pixels(w, h))
  {
    var s := left + [sep] + right;
    assert s[|left|] == sep;
    assert 'x' in s || 'X' in s;
    PaddedSplit(left, right, sep);
    var parts := Split(ReplaceChar(s, 'X', 'x'), 'x');
    assert parts[0] == left && parts[1] == right;
  }

  /** Whitespace around either number is allowed: " W x H " is read as W by H. */
  lemma CustomPadded(w: int, h: int, sep: char, a: string, b: string, c: string, d: string)
    requires sep == 'x' || sep == 'X'
    requires forall i :: 0 <= i < |a| ==> IsSpace(a[i])
    requires forall i :: 0 <= i < |b| ==> IsSpace(b[i])
    requires forall i :: 0 <= i < |c| ==> IsSpace(c[i])
    requires forall i :: 0 <= i < |d| ==> IsSpace(d[i])
    ensures SizeOf(a + Show(w) + b + [sep] + c + Show(h) + d) == Pixels(w, h)
  {
    var left, right := a + Show(w) + b, c + Show(h) + d;
    assert a + Show(w) + b + [sep] + c + Show(h) + d == left + [sep] + right;
    PaddedSide(a, w, b);
    PaddedSide(c, h, d);
    SizeOfSides(left, right, sep, w, h);
  }

  /** Two sides without separators split into exactly those sides, whichever separator stands between them. */
  lemma PaddedSplit(left: string, right: string, sep: char)
    requires sep == 'x' || sep == 'X'
    requires 'x' !in left && 'X' !in left && 'x' !in right && 'X' !in right
    ensures Split(ReplaceChar(left + [sep] + right, 'X', 'x'), 'x') == [left, right]
  {
    var s := left + [sep] + right;
    var r := ReplaceChar(s, 'X', 'x');
    forall i | 0 <= i < |s|
      ensures r[i] == (left + ['x'] + right)[i]
    {
      if i < |left| {
        assert s[i] == left[i];
      } else if i > |left| {
        assert s[i] == right[i - |left| - 1];
      }
    }
    assert r == left + ['x'] + right;
    SplitTwo(left, right, 'x');
  }

  lemma Show2560()
    ensures Show(2560) == "2560" && Show(1440) == "1440"
  {
    ShowFourDigits(2, 5, 6, 0);
    ShowFourDigits(1, 4, 4, 0);
  }

  lemma Show3024()
    ensures Show(3024) == "3024" && Show(1296) == "1296"
  {
    ShowFourDigits(3, 0, 2, 4);
    ShowFourDigits(1, 2, 9, 6);
  }

  /** The widescreen ratios as sent: "16:9" is "2560x1440" and "21:9" is "3024x1296". */
  lemma RatioExamples()
    ensures ParseSize("16:9") == "2560x1440"
    ensures ParseSize("21:9") == "3024x1296"
  {
    RatioSize("16:9");
    RatioSize("21:9");
    Show2560();
    Show3024();
  }

  /** Text without a separator falls back to the default. */
  lemma DefaultOfWord()
    ensures ParseSize("abc") == "2048x2048"
  {
    assert Upper("abc") == "ABC";
    NoColonInTokens();
    NotRatio("abc");
    assert 'x' !in "abc" && 'X' !in "abc";
    DefaultSize("abc");
  }

  // ---------------------------------------------------------------------
  // prepare_image_input
  // ---------------------------------------------------------------------

  /** The formats the extension table yields. */
  const Formats: seq<string> := ["jpeg", "png", "webp", "bmp", "tiff", "gif"]

  /** The extension table, on an already lower-cased extension; unknown ones are sent as JPEG. */
  function FormatOfExtension(ext: string): (format: string)
    ensures format in Formats && ';' !in format
  {
    if ext in [".jpg", ".jpeg"] then "jpeg"
    else if ext == ".png" then "png"
    else if ext == ".webp" then "webp"
    else if ext == ".bmp" then "bmp"
    else if ext in [".tiff", ".tif"] then "tiff"
    else if ext == ".gif" then "gif"
    else "jpeg"
  }

  /** The format of a file: its pathlib suffix, lower-cased, through the table. */
  function FormatOf(path: string): string {
    FormatOfExtension(Lower(Suffix(path)))
  }

  /** A file `dir/stem.ext` gets the format of `ext` in whatever letter case it is written. */
  lemma FormatOfFile(dir: string, stem: string, ext: string)
    requires stem != "" && '.' !in stem && '/' !in stem
    requires |ext| >= 2 && ext[0] == '.' && '.' !in ext[1..] && '/' !in ext
    ensures FormatOf(dir + "/" + stem + ext) == FormatOfExtension(Lower(ext))
    ensures FormatOf(dir + "/" + stem + Upper(ext)) == FormatOfExtension(Lower(ext))
  {
    SuffixOfFile(dir, stem, ext);
    var up := Upper(ext);
    assert up[0] == '.';
    assert forall i :: 1 <= i < |up| ==> up[i] != '.' && up[i] != '/';
    assert '.' !in up[1..];
    SuffixOfFile(dir, stem, up);
    LowerOfUpper(ext);
  }

  lemma LowerOfUpper(s: string)
    ensures Lower(Upper(s)) == Lower(s)
  {
    assert forall i :: 0 <= i < |s| ==> LowerChar(UpperChar(s[i])) == LowerChar(s[i]);
  }

  /** The data URL sent for a local image (RFC 2397, base64 payload). */
  function DataUrl(format: string, payload: string): string {
    "data:image/" + format + ";base64," + payload
  }

  /** Reading a data URL back into its format and payload. */
  function DataUrlParts(s: string): Option<(string, string)> {
    var head := "data:image/";
    if !StartsWith(s, head) then None
    else
      var rest := s[|head|..];
      var k := IndexOf(rest, ';');
      var after := rest[k..];
      if StartsWith(after, ";base64,") then Some((rest[..k], after[8..])) else None
  }

  /** The format and the payload can be read back from the data URL. */
  lemma DataUrlRoundTrip(format: string, payload: string)
    requires ';' !in format
    ensures DataUrlParts(DataUrl(format, payload)) == Some((format, payload))
  {
    var s := DataUrl(format, payload);
    assert s == "data:image/" + (format + (";base64," + payload));
    var rest := s[11..];
    assert rest == format + (";base64," + payload);
    IndexOfAfter(format, ";base64," + payload, ';');
    assert rest[..|format|] == format;
    assert rest[|format|..] == ";base64," + payload;
  }

  /** The directory every local image path starts with. */
  const StoragePrefix: string := "/storage/"

  /** The host names treated as this machine. */
  const LocalHosts: seq<string> := ["localhost", "127.0.0.1", "0.0.0.0"]

  /** `hostname in [...] or (hostname and "localhost" in hostname)`. */
  predicate IsLocalHost(host: Option<string>) {
    host.Some? && (host.value in LocalHosts || Contains(host.value, "localhost"))
  }

  /** The file a URL refers to, relative to the backend directory; or the ValueError it raises. */
  function LocalFile(url: string): Result<string, Failure> {
    if StartsWith(url, StoragePrefix) then Ok(LStripChar(url, '/'))
    else
      var parsed := UrlParse(url);
      if parsed.None? then Err(InvalidUrl)
      else if IsLocalHost(Hostname(parsed.value.netloc)) && StartsWith(parsed.value.path, StoragePrefix) then
        Ok(LStripChar(parsed.value.path, '/'))
      else Err(PublicUrl(Take(url, 50)))
  }

  /** Reading a local file: its data URL, or FileNotFoundError when it is not there. */
  function ReadImage(local: string, files: map<string, seq<bv8>>, encode: seq<bv8> -> string): Result<string, Failure> {
    if local !in files then Err(FileMissing(local))
    else Ok(DataUrl(FormatOf(local), encode(files[local])))
  }

  /**
   * `prepare_image_input`: a local file as a data URL; FileNotFoundError
   * when it is not there; ValueError for anything that is not local. The
   * files are the backend directory's contents by relative path, `encode`
   * is base64 encoding.
   */
  function PrepareImageInput(url: string, files: map<string, seq<bv8>>, encode: seq<bv8> -> string): Result<string, Failure> {
    var local := LocalFile(url);
    if local.Err? then Err(local.error) else ReadImage(local.value, files, encode)
  }

  /** A file that is read is sent as a data URL from which its format and encoded bytes read back. */
  lemma ReadImageDataUrl(local: string, files: map<string, seq<bv8>>, encode: seq<bv8> -> string)
    ensures ReadImage(local, files, encode).Ok? <==> local in files
    ensures local in files ==>
      DataUrlParts(ReadImage(local, files, encode).value) == Some((FormatOf(local), encode(files[local])))
  {
    if local in files {
      DataUrlRoundTrip(FormatOf(local), encode(files[local]));
    }
  }

  /** A "/storage/..." path is read from "storage/..." under the backend directory. */
  lemma StoragePathInput(rest: string, files: map<string, seq<bv8>>, encode: seq<bv8> -> string)
    ensures PrepareImageInput(StoragePrefix + rest, files, encode) == ReadImage("storage/" + rest, files, encode)
  {
    LocalFileOfStorage(rest);
  }

  /** A "/storage/..." path names the file "storage/..." relative to the backend directory. */
  lemma LocalFileOfStorage(rest: string)
    ensures LocalFile(StoragePrefix + rest) == Ok("storage/" + rest)
  {
    var url := StoragePrefix + rest;
    assert StartsWith(url, StoragePrefix);
    assert url[0] == '/' && url[1..] == "storage/" + rest;
    assert ("storage/" + rest)[0] == 's';
    assert LStripChar(url, '/') == "storage/" + rest;
  }

  /** Once a URL that does not start with a slash is parsed, only its host and path decide. */
  lemma LocalFileOfParsed(url: string, u: Url)
    requires |url| > 0 && url[0] != '/' && UrlParse(url) == Some(u)
    ensures LocalFile(url) ==
      if IsLocalHost(Hostname(u.netloc)) && StartsWith(u.path, StoragePrefix) then Ok(LStripChar(u.path, '/'))
      else Err(PublicUrl(Take(url, 50)))
  {
    assert !StartsWith(url, StoragePrefix) by {
      if |StoragePrefix| <= |url| {
        assert url[..|StoragePrefix|][0] != StoragePrefix[0];
      }
    }
  }

  /** The netloc `host + port` of a plain URL holds no delimiter `urlsplit` looks for. */
  lemma PlainNetloc(host: string, port: string)
    requires forall c :: c in host ==> c !in "@[]:%/?#\t\r\n"
    requires forall c :: c in port ==> c !in "@[]/?#\t\r\n"
    ensures forall c :: c in host + port ==> c !in "/?#[]\t\r\n"
    ensures '@' !in host && '[' !in host && ':' !in host && '%' !in host
    ensures '@' !in port && '[' !in port
  {
    assert forall c :: c in host + port ==> c in host || c in port;
  }

  /** A plain URL parses into its own parts. */
  lemma ParsedPlain(scheme: string, host: string, port: string, path: string)
    requires scheme != "" && forall k :: 0 <= k < |scheme| ==> AsciiAlpha(scheme[k])
    requires forall c :: c in host ==> c !in "@[]:%/?#\t\r\n"
    requires forall c :: c in port ==> c !in "@[]/?#\t\r\n"
    requires |path| > 0 && path[0] == '/' && forall c :: c in path ==> c !in "?#;\t\r\n"
    ensures UrlParse(scheme + "://" + host + port + path) == Some(Url(Lower(scheme), host + port, path, "", "", ""))
  {
    PlainNetloc(host, port);
    assert scheme + "://" + host + port + path == scheme + "://" + (host + port) + path;
    UrlParseOfPlain(scheme, host + port, path);
  }

  /**
   * A plain URL `scheme://host[:port]path` is local exactly when its host is
   * a local name and its path is under "/storage/"; any other such URL,
   * including a localhost URL outside "/storage/", is rejected as public.
   */
  lemma PlainUrlInput(scheme: string, host: string, port: string, path: string)
    requires scheme != "" && forall k :: 0 <= k < |scheme| ==> AsciiAlpha(scheme[k])
    requires host != "" && forall c :: c in host ==> c !in "@[]:%/?#\t\r\n"
    requires port == "" || port[0] == ':'
    requires forall c :: c in port ==> c !in "@[]/?#\t\r\n"
    requires |path| > 0 && path[0] == '/' && forall c :: c in path ==> c !in "?#;\t\r\n"
    ensures var url := scheme + "://" + host + port + path;
      LocalFile(url) ==
        if IsLocalHost(Some(Lower(host))) && StartsWith(path, StoragePrefix) then Ok(LStripChar(path, '/'))
        else Err(PublicUrl(Take(url, 50)))
  {
    var url := scheme + "://" + host + port + path;
    var u := Url(Lower(scheme), host + port, path, "", "", "");
    assert Hostname(u.netloc) == Some(Lower(host)) by {
      PlainNetloc(host, port);
      HostnameOfPlain(host, port);
    }
    assert UrlParse(url) == Some(u) by {
      ParsedPlain(scheme, host, port, path);
    }
    assert url[0] == scheme[0];
    LocalFileOfParsed(url, u);
  }

  // ---------------------------------------------------------------------
  // The image URLs in the provider's answer
  // ---------------------------------------------------------------------

  /** `[item.get("url") for item in items if item.get("url")]`; None where an item is not an object. */
  function UrlsOf(items: seq<Json>): (r: Option<seq<Json>>)
    ensures r.Some? ==> |r.value| <= |items| && forall i :: 0 <= i < |r.value| ==> Truthy(r.value[i])
  {
    if items == [] then Some([])
    else if !items[0].JObject? then None
    else
      var rest := UrlsOf(items[1..]);
      var url := Get(items[0].fields, "url");
      if rest.None? then None else Some((if Truthy(url) then [url] else []) + rest.value)
  }

  /** The comprehension raises exactly when some item is not an object. */
  lemma {:induction false} UrlsOfFails(items: seq<Json>)
    ensures UrlsOf(items).None? <==> exists i :: 0 <= i < |items| && !items[i].JObject?
    decreases |items|
  {
    if items != [] && items[0].JObject? {
      UrlsOfFails(items[1..]);
      if exists i :: 0 <= i < |items| && !items[i].JObject? {
        var i :| 0 <= i < |items| && !items[i].JObject?;
        assert !items[1..][i - 1].JObject?;
      }
    }
  }

  /** One object gives its "url" when that is truthy, and nothing otherwise. */
  lemma UrlsOfOne(item: Json)
    requires item.JObject?
    ensures UrlsOf([item]) == Some(if Truthy(Get(item.fields, "url")) then [Get(item.fields, "url")] else [])
  {
    assert [item][1..] == [];
    assert UrlsOf([]) == Some([]);
    var url := Get(item.fields, "url");
    assert (if Truthy(url) then [url] else []) + [] == (if Truthy(url) then [url] else []);
  }

  /** The URLs of two lists in a row are those of the first followed by those of the second. */
  lemma {:induction false} UrlsOfAppend(a: seq<Json>, b: seq<Json>)
    ensures UrlsOf(a + b).Some? <==> UrlsOf(a).Some? && UrlsOf(b).Some?
    ensures UrlsOf(a + b).Some? ==> UrlsOf(a + b).value == UrlsOf(a).value + UrlsOf(b).value
    decreases |a|
  {
    if a == [] {
      assert a + b == b;
    } else {
      assert (a + b)[0] == a[0];
      assert (a + b)[1..] == a[1..] + b;
      UrlsOfAppend(a[1..], b);
    }
  }

  /** `data[key]` is a list. */
  predicate ListUnder(data: Json, key: string) {
    data.JObject? && key in data.fields && data.fields[key].JList?
  }

  /**
   * The image URLs of an answer: from a list under "data", else from a list
   * under "images", else the value under "url" unfiltered, else none. None
   * where the lookups raise: `in` on a number, a boolean or null, or
   * indexing a list or string with a key.
   */
  function ExtractUrls(data: Json): Option<seq<Json>> {
    var hasData := PyIn("data", data);
    if hasData.None? || (hasData.value && !data.JObject?) then None
    else if ListUnder(data, "data") then UrlsOf(data.fields["data"].items)
    else
      var hasImages := PyIn("images", data);
      if hasImages.None? || (hasImages.value && !data.JObject?) then None
      else if ListUnder(data, "images") then UrlsOf(data.fields["images"].items)
      else
        var hasUrl := PyIn("url", data);
        if hasUrl.None? || (hasUrl.value && !data.JObject?) then None
        else if hasUrl.value then Some([data.fields["url"]])
        else Some([])
  }

  /** A list under "data" decides alone: nothing under "images" or "url" changes the URLs. */
  lemma DataListFirst(m: map<string, Json>, images: Json, url: Json)
    requires ListUnder(JObject(m), "data")
    ensures ExtractUrls(JObject(m)) == UrlsOf(m["data"].items)
    ensures ExtractUrls(JObject(m["images" := images])) == ExtractUrls(JObject(m))
    ensures ExtractUrls(JObject(m["url" := url])) == ExtractUrls(JObject(m))
  {
    assert ListUnder(JObject(m["images" := images]), "data");
    assert ListUnder(JObject(m["url" := url]), "data");
  }

  /** Without a list under "data", a list under "images" decides: nothing under "url" changes the URLs. */
  lemma ImagesListNext(m: map<string, Json>, url: Json)
    requires !ListUnder(JObject(m), "data") && ListUnder(JObject(m), "images")
    ensures ExtractUrls(JObject(m)) == UrlsOf(m["images"].items)
    ensures ExtractUrls(JObject(m["url" := url])) == ExtractUrls(JObject(m))
  {
    var m' := m["url" := url];
    assert !ListUnder(JObject(m'), "data");
    assert ListUnder(JObject(m'), "images");
  }

  /** URLs taken from a list are all truthy, while a top-level "url" is taken as it is. */
  lemma ExtractedUrls(data: Json)
    requires ExtractUrls(data).Some?
    ensures ListUnder(data, "data") || ListUnder(data, "images") ==>
      forall i :: 0 <= i < |ExtractUrls(data).value| ==> Truthy(ExtractUrls(data).value[i])
    ensures !ListUnder(data, "data") && !ListUnder(data, "images") && data.JObject? && "url" in data.fields ==>
      ExtractUrls(data).value == [data.fields["url"]]
  {
  }

  // ---------------------------------------------------------------------
  // The tools
  // ---------------------------------------------------------------------

  /** The file name prefix of this provider's downloads. */
  const FilePrefix: string := "volcano_"

  /** The reply when no key is configured. */
  const MissingKey: string := "未配置 VOLCANO_API_KEY（请在 backend/.env 设置，可参考 env.example）"

  /** The prompt a download is named after: `f"{prompt}_{idx+1}"` when several images were asked for. */
  function IndexedPrompt(prompt: string, idx: nat, numImages: int): string {
    if numImages > 1 then prompt + "_" + Show(idx + 1) else prompt
  }

  /** The `saved_paths` loop for any download `save(url, k)` of the k-th URL: every truthy URL in order, from position `from` on. */
  function Collect(urls: seq<Json>, from: nat, save: (Json, nat) -> Json): seq<Json>
    decreases |urls|
  {
    if urls == [] then []
    else (if Truthy(urls[0]) then [save(urls[0], from)] else []) + Collect(urls[1..], from + 1, save)
  }

  /** With truthy URLs only, the k-th collected path is the download of the k-th URL. */
  lemma {:induction false} CollectAll(urls: seq<Json>, from: nat, save: (Json, nat) -> Json)
    requires forall i :: 0 <= i < |urls| ==> Truthy(urls[i])
    ensures |Collect(urls, from, save)| == |urls|
    ensures forall k :: 0 <= k < |urls| ==> Collect(urls, from, save)[k] == save(urls[k], from + k)
    decreases |urls|
  {
    if urls != [] {
      var tail := urls[1..];
      CollectAll(tail, from + 1, save);
      var rest := Collect(tail, from + 1, save);
      var all := Collect(urls, from, save);
      assert all == [save(urls[0], from)] + rest;
      forall k | 1 <= k < |urls|
        ensures all[k] == save(urls[k], from + k)
      {
        assert all[k] == rest[k - 1];
        assert tail[k - 1] == urls[k];
      }
    }
  }

  /** Collecting over a concatenation collects each part, the second from where the first ends. */
  lemma {:induction false} CollectAppend(a: seq<Json>, b: seq<Json>, from: nat, save: (Json, nat) -> Json)
    ensures Collect(a + b, from, save) == Collect(a, from, save) + Collect(b, from + |a|, save)
    decreases |a|
  {
    if a == [] {
      assert a + b == b;
    } else {
      assert (a + b)[0] == a[0];
      assert (a + b)[1..] == a[1..] + b;
      CollectAppend(a[1..], b, from + 1, save);
      AppendAssoc(if Truthy(a[0]) then [save(a[0], from)] else [], Collect(a[1..], from + 1, save), Collect(b, from + |a|, save));
    }
  }

  /** How this provider saves the k-th URL of an answer: named after the k-th prompt, in the k-th world. */
  function Download(prompt: string, numImages: int, io: nat -> Io): (Json, nat) -> Json {
    (url: Json, k: nat) => SaveOne(FilePrefix, url, IndexedPrompt(prompt, k, numImages), io(k))
  }

  /** The paths `saved_paths` collects for `urls`. */
  function SavedFrom(urls: seq<Json>, prompt: string, numImages: int, io: nat -> Io): seq<Json> {
    Collect(urls, 0, Download(prompt, numImages, io))
  }

  /** One download: a string URL is saved (or kept on failure), any other value is kept as it is. */
  method SaveUrl(url: Json, prompt: string, io: Io) returns (localPath: Json)
    ensures localPath == SaveOne(FilePrefix, url, prompt, io)
    ensures !url.JStr? ==> localPath == url
  {
    localPath := url;
    if url.JStr? {
      var path := DownloadAndSave(FilePrefix, url.s, prompt, io);
      localPath := JStr(path);
    }
  }

  /** One more URL: collecting the longer prefix adds that URL's download, if it is truthy. */
  lemma CollectStep(urls: seq<Json>, idx: nat, save: (Json, nat) -> Json)
    requires idx < |urls|
    ensures Collect(urls[..idx + 1], 0, save)
      == Collect(urls[..idx], 0, save) + (if Truthy(urls[idx]) then [save(urls[idx], idx)] else [])
  {
    assert urls[..idx] + [urls[idx]] == urls[..idx + 1];
    CollectAppend(urls[..idx], [urls[idx]], 0, save);
    assert Collect([urls[idx]], idx, save) == (if Truthy(urls[idx]) then [save(urls[idx], idx)] else []) + Collect([], idx + 1, save);
  }

  /** The download loop: every truthy URL in turn, in order. */
  method SaveAll(urls: seq<Json>, prompt: string, numImages: int, io: nat -> Io) returns (saved: seq<Json>)
    ensures saved == SavedFrom(urls, prompt, numImages, io)
  {
    var save := Download(prompt, numImages, io);
    saved := [];
    var idx := 0;
    while idx < |urls|
      invariant 0 <= idx <= |urls|
      invariant saved == Collect(urls[..idx], 0, save)
    {
      CollectStep(urls, idx, save);
      if Truthy(urls[idx]) {
        var localPath := SaveUrl(urls[idx], IndexedPrompt(prompt, idx, numImages), io(idx));
        saved := saved + [localPath];
      }
      idx := idx + 1;
    }
    assert urls[..idx] == urls;
  }

  /** The result object: one image, or several with their count. */
  function GenerateResult(prompt: string, urls: seq<Json>, saved: seq<Json>): map<string, Json>
    requires urls != []
  {
    if |saved| == 1 then
      map["image_url" := saved[0], "original_url" := urls[0], "local_path" := saved[0], "prompt" := JStr(prompt),
          "provider" := JStr("volcano"), "message" := JStr("图片已生成并保存到本地")]
    else
      map["image_urls" := JList(saved), "original_urls" := JList(urls), "local_paths" := JList(saved),
          "prompt" := JStr(prompt), "provider" := JStr("volcano"), "count" := JNum(|saved|),
          "message" := JStr("已生成 " + Show(|saved|) + " 张图片并保存到本地")]
  }

  /** What the generation tool answers once the request is sent. */
  function GenerateOutcome(prompt: string, numImages: int, response: Response, dumps: Json -> string, io: nat -> Io): Outcome {
    var body := ResponseBody(GeneratePrefix, response);
    if body.Err? then body.error
    else
      var urls := ExtractUrls(body.value);
      if urls.None? then Raised(GeneratePrefix, Foreign)
      else if urls.value == [] then Reply(NoUrlReply + dumps(body.value))
      else Result(GenerateResult(prompt, urls.value, SavedFrom(urls.value, prompt, numImages, io)))
  }

  /**
   * `generate_volcano_image_tool`: no request without a key; otherwise the
   * parsed size and image count are sent, and each URL of the answer is
   * downloaded in turn.
   */
  method GenerateVolcanoImage(prompt: string, size: string, numImages: int, apiKey: string,
                                     response: Response, dumps: Json -> string, io: nat -> Io)
    returns (request: Option<Request>, out: Outcome)
    ensures apiKey == "" ==> request == None && out == Reply(GeneratePrefix + MissingKey)
    ensures apiKey != "" ==> request == Some(Request(prompt, Some(ParseSize(size)), Some(numImages), None))
    ensures apiKey != "" ==> out == GenerateOutcome(prompt, numImages, response, dumps, io)
  {
    if apiKey == "" {
      return None, Reply(GeneratePrefix + MissingKey);
    }
    var sizeValue := ParseSize(size);
    request := Some(Request(prompt, Some(sizeValue), Some(numImages), None));
    var body := ResponseBody(GeneratePrefix, response);
    if body.Err? {
      return request, body.error;
    }
    var extracted := ExtractUrls(body.value);
    if extracted.None? {
      return request, Raised(GeneratePrefix, Foreign);
    }
    var urls := extracted.value;
    if urls == [] {
      return request, Reply(NoUrlReply + dumps(body.value));
    }
    var saved := SaveAll(urls, prompt, numImages, io);
    out := Result(GenerateResult(prompt, urls, saved));
  }

  /** The k-th saved path is the download of the k-th URL, named after `prompt_<k+1>` when several images were asked for. */
  lemma SavedFromAll(urls: seq<Json>, prompt: string, numImages: int, io: nat -> Io)
    requires forall i :: 0 <= i < |urls| ==> Truthy(urls[i])
    ensures |SavedFrom(urls, prompt, numImages, io)| == |urls|
    ensures forall k :: 0 <= k < |urls| ==>
      SavedFrom(urls, prompt, numImages, io)[k]
        == SaveOne(FilePrefix, urls[k], if numImages > 1 then prompt + "_" + Show(k + 1) else prompt, io(k))
  {
    var save := Download(prompt, numImages, io);
    CollectAll(urls, 0, save);
    forall k | 0 <= k < |urls|
      ensures SavedFrom(urls, prompt, numImages, io)[k]
        == SaveOne(FilePrefix, urls[k], if numImages > 1 then prompt + "_" + Show(k + 1) else prompt, io(k))
    {
      assert SavedFrom(urls, prompt, numImages, io)[k] == save(urls[k], k);
    }
  }

  /** One truthy URL: the result names the download once, and the original URL beside it. */
  lemma GenerateOne(prompt: string, numImages: int, url: Json, io: nat -> Io)
    requires Truthy(url)
    ensures SavedFrom([url], prompt, numImages, io) == [SaveOne(FilePrefix, url, IndexedPrompt(prompt, 0, numImages), io(0))]
    ensures var local := SaveOne(FilePrefix, url, IndexedPrompt(prompt, 0, numImages), io(0));
      var r := GenerateResult(prompt, [url], [local]);
      && r["image_url"] == local && r["local_path"] == local && r["original_url"] == url
      && r["provider"] == JStr("volcano") && r["prompt"] == JStr(prompt)
  {
    CollectAll([url], 0, Download(prompt, numImages, io));
  }

  /** Several truthy URLs: the result lists every download in order, beside the original URLs and their count. */
  lemma GenerateMany(prompt: string, numImages: int, urls: seq<Json>, io: nat -> Io)
    requires |urls| >= 2 && forall i :: 0 <= i < |urls| ==> Truthy(urls[i])
    ensures |SavedFrom(urls, prompt, numImages, io)| == |urls|
    ensures var saved := SavedFrom(urls, prompt, numImages, io);
      var r := GenerateResult(prompt, urls, saved);
      && r["count"] == JNum(|urls|) && r["original_urls"] == JList(urls)
      && r["image_urls"] == r["local_paths"] == JList(saved)
  {
    var saved := SavedFrom(urls, prompt, numImages, io);
    CollectAll(urls, 0, Download(prompt, numImages, io));
    ManyResult(prompt, urls, saved);
  }

  /** With two or more downloads the result lists them all beside the original URLs and their count. */
  lemma ManyResult(prompt: string, urls: seq<Json>, saved: seq<Json>)
    requires |saved| == |urls| >= 2
    ensures var r := GenerateResult(prompt, urls, saved);
      && "count" in r && "original_urls" in r && "image_urls" in r && "local_paths" in r
      && r["count"] == JNum(|urls|) && r["original_urls"] == JList(urls)
      && r["image_urls"] == r["local_paths"] == JList(saved)
  {
  }

  /**
   * The result of a successful edit: only the first URL of the answer is
   * downloaded, and that download is both `image_url` and `local_path`;
   * the caller's image is kept as `source_image`.
   */
  function EditResult(prompt: string, imageUrl: string, first: Json, io: Io): (r: map<string, Json>)
    ensures "image_url" in r && "local_path" in r && "original_url" in r && "source_image" in r
    ensures r["source_image"] == JStr(imageUrl) && r["original_url"] == first
    ensures r["image_url"] == r["local_path"] == SaveOne(FilePrefix, first, prompt, io)
  {
    var local := SaveOne(FilePrefix, first, prompt, io);
    map["image_url" := local, "original_url" := first, "local_path" := local, "prompt" := JStr(prompt),
        "source_image" := JStr(imageUrl), "provider" := JStr("volcano"),
        "message" := JStr("图片已编辑并保存到本地")]
  }

  /** What the editing tool answers once the request is sent. */
  function EditOutcome(prompt: string, imageUrl: string, response: Response, dumps: Json -> string, io: Io): Outcome {
    var body := ResponseBody(EditPrefix, response);
    if body.Err? then body.error
    else
      var urls := ExtractUrls(body.value);
      if urls.None? then Raised(EditPrefix, Foreign)
      else if urls.value == [] then Reply(NoUrlReply + dumps(body.value))
      else Result(EditResult(prompt, imageUrl, urls.value[0], io))
  }

  /**
   * `edit_volcano_image_tool`: no request without a key or with an input
   * that is not a local image; otherwise the local image is sent as a data
   * URL with the parsed size.
   */
  function EditVolcanoImage(prompt: string, imageUrl: string, size: string, apiKey: string,
                            files: map<string, seq<bv8>>, encode: seq<bv8> -> string,
                            response: Response, dumps: Json -> string, io: Io): (Option<Request>, Outcome)
  {
    if apiKey == "" then (None, Reply(EditPrefix + MissingKey))
    else
      var sizeValue := ParseSize(size);
      var input := PrepareImageInput(imageUrl, files, encode);
      if input.Err? then (None, Raised(EditPrefix, input.error))
      else (Some(Request(prompt, Some(sizeValue), None, Some(input.value))), EditOutcome(prompt, imageUrl, response, dumps, io))
  }

  /**
   * An edit sends a request only with a key and a prepared local image, and
   * sends that image; a failed preparation is raised with its own error.
   */
  lemma EditRequest(prompt: string, imageUrl: string, size: string, apiKey: string,
                    files: map<string, seq<bv8>>, encode: seq<bv8> -> string,
                    response: Response, dumps: Json -> string, io: Io)
    ensures var (request, out) := EditVolcanoImage(prompt, imageUrl, size, apiKey, files, encode, response, dumps, io);
      var input := PrepareImageInput(imageUrl, files, encode);
      && (apiKey == "" ==> out == Reply(EditPrefix + MissingKey))
      && (request.Some? <==> apiKey != "" && input.Ok?)
      && (apiKey != "" && input.Err? ==> out == Raised(EditPrefix, input.error))
      && (request.Some? ==> request.value.image == Some(input.value) && request.value.size == Some(ParseSize(size)))
  {
  }
}
