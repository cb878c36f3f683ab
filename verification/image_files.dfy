/**
 * How both image tools store a downloaded picture
 * (`download_and_save_image` in backend/app/tools/volcano_image_generation.py
 * and backend/app/tools/image_generation.py): the extension taken from the
 * URL path, a file name made of a time stamp, a short random id and a
 * sanitised prompt fragment, a JPEG or PNG extension once Pillow has decoded
 * the picture, and the original URL whenever anything fails.
 */
module ImageFiles {
  import opened Common
  import opened PyPath

  /** The public path under which stored images are served. */
  const ImagesRoute: string := "/storage/images/"

  /** How many characters of the prompt feed the file name. */
  const FragmentSource: nat := 30

  /**
   * `str.isalnum()`: ASCII letters and digits, the Latin-1 letters and
   * numerals, basic Greek and Cyrillic, kana, CJK ideographs, Hangul
   * syllables and the full-width letters and digits.
   */
  predicate IsAlnum(c: char) {
    ('0' <= c <= '9') || ('A' <= c <= 'Z') || ('a' <= c <= 'z')
    || c == '\U{AA}' || c == '\U{B2}' || c == '\U{B3}' || c == '\U{B5}' || c == '\U{B9}' || c == '\U{BA}'
    || ('\U{BC}' <= c <= '\U{BE}')
    || ('\U{C0}' <= c <= '\U{FF}' && c != '\U{D7}' && c != '\U{F7}')
    || ('\U{391}' <= c <= '\U{3A9}' && c != '\U{3A2}') || ('\U{3B1}' <= c <= '\U{3C9}')
    || ('\U{410}' <= c <= '\U{44F}')
    || ('\U{3041}' <= c <= '\U{3096}') || ('\U{30A1}' <= c <= '\U{30FA}')
    || ('\U{4E00}' <= c <= '\U{9FFF}')
    || ('\U{AC00}' <= c <= '\U{D7A3}')
    || ('\U{FF10}' <= c <= '\U{FF19}') || ('\U{FF21}' <= c <= '\U{FF3A}') || ('\U{FF41}' <= c <= '\U{FF5A}')
  }

  /** A character the prompt fragment keeps. */
  predicate Kept(c: char) {
    IsAlnum(c) || c == ' ' || c == '-' || c == '_'
  }

  /** The kept characters of `s`, in order. */
  function KeepAllowed(s: string): (r: string)
    ensures |r| <= |s|
    ensures forall i :: 0 <= i < |r| ==> Kept(r[i])
  {
    if s == [] then []
    else (if Kept(s[0]) then [s[0]] else []) + KeepAllowed(s[1..])
  }

  /** The first `n` characters, as `s[:n]` takes them. */
  function Take(s: string, n: nat): (r: string)
    ensures |r| <= n && |r| <= |s| && r == s[..|r|]
    ensures |s| <= n ==> r == s
    ensures n < |s| ==> |r| == n
  {
    if |s| <= n then s else s[..n]
  }

  /** Filtering distributes over concatenation: each part keeps what it would keep alone. */
  lemma {:induction false} KeepAllowedAppend(a: string, b: string)
    ensures KeepAllowed(a + b) == KeepAllowed(a) + KeepAllowed(b)
    decreases |a|
  {
    if a == [] {
      assert a + b == b;
    } else {
      assert (a + b)[0] == a[0];
      assert (a + b)[1..] == a[1..] + b;
      KeepAllowedAppend(a[1..], b);
    }
  }

  /** Nothing allowed is dropped: a string of kept characters is kept whole. */
  lemma {:induction false} KeepAllowedAll(s: string)
    requires forall i :: 0 <= i < |s| ==> Kept(s[i])
    ensures KeepAllowed(s) == s
    decreases |s|
  {
    if s != [] {
      assert Kept(s[0]);
      KeepAllowedAll(s[1..]);
    }
  }

  /** A character survives exactly when it was in the input and is allowed. */
  lemma {:induction false} KeepAllowedMembers(s: string, c: char)
    ensures c in KeepAllowed(s) <==> c in s && Kept(c)
    decreases |s|
  {
    if s != [] {
      KeepAllowedMembers(s[1..], c);
      assert s == [s[0]] + s[1..];
    }
  }

  /** `safe_prompt`: the kept characters of the first 30 of the prompt, with spaces turned into '_'. */
  function Fragment(prompt: string): string {
    ReplaceChar(KeepAllowed(Take(prompt, FragmentSource)), ' ', '_')
  }

  /**
   * The fragment is at most 30 characters long and holds only alphanumeric
   * characters, '-' and '_': the prompt's spaces became '_' and everything
   * else was dropped.
   */
  lemma FragmentChars(prompt: string)
    ensures |Fragment(prompt)| <= FragmentSource
    ensures forall i :: 0 <= i < |Fragment(prompt)| ==> IsAlnum(Fragment(prompt)[i]) || Fragment(prompt)[i] == '-' || Fragment(prompt)[i] == '_'
  {
    var kept := KeepAllowed(Take(prompt, FragmentSource));
    assert forall i :: 0 <= i < |kept| ==> Kept(kept[i]);
  }

  /**
   * A prompt of at most 30 allowed characters comes through whole, with each
   * space turned into '_'.
   */
  lemma FragmentOfAllowed(prompt: string)
    requires |prompt| <= FragmentSource
    requires forall i :: 0 <= i < |prompt| ==> Kept(prompt[i])
    ensures |Fragment(prompt)| == |prompt|
    ensures forall i :: 0 <= i < |prompt| ==> Fragment(prompt)[i] == (if prompt[i] == ' ' then '_' else prompt[i])
  {
    KeepAllowedAll(prompt);
  }

  /** Only the first 30 characters of the prompt matter. */
  lemma FragmentIgnoresTail(prompt: string, more: string)
    requires FragmentSource <= |prompt|
    ensures Fragment(prompt + more) == Fragment(prompt)
  {
    assert (prompt + more)[..FragmentSource] == prompt[..FragmentSource];
  }

  /** `splitext(path)[1] or ".png"`, and ".png" again when that does not start with a dot. */
  function PathExtension(path: string): string {
    var ext := SplitExt(path).1;
    var ext' := if ext == "" then ".png" else ext;
    if !StartsWith(ext', ".") then ".png" else ext'
  }

  /** The extension of the URL's path; None where `urlparse` raises. */
  function UrlExtension(url: string): Option<string> {
    var parsed := UrlParse(url);
    if parsed.None? then None else Some(PathExtension(parsed.value.path))
  }

  /** `f"{prefix}{ts}_{id}_{frag}{ext}"`, or without `_{frag}` when the fragment is empty. */
  function FirstName(prefix: string, stamp: string, uid: string, fragment: string, ext: string): string {
    if fragment != "" then prefix + stamp + "_" + uid + "_" + fragment + ext
    else prefix + stamp + "_" + uid + ext
  }

  /** What Pillow makes of the downloaded bytes: nothing (not installed, or open/load failed), or a picture. */
  datatype Picture =
    | Undecoded
      /** `alphaMin` is the lowest alpha value, None when reading the alpha channel failed. */
    | Decoded(hasAlpha: bool, alphaMin: Option<int>)

  /** `is_transparent`: an alpha channel whose minimum is below 255, or one that could not be read. */
  predicate Transparent(p: Picture) {
    p.Decoded? && p.hasAlpha && (p.alphaMin.None? || p.alphaMin.value < 255)
  }

  /** The request for the bytes: failed (connection or HTTP error status), or answered with a picture. */
  datatype Fetch = FetchFailed | Fetched(picture: Picture)

  /**
   * What the outside world contributes to one call: the download, the time
   * stamp (`%Y%m%d_%H%M%S`), the first eight characters of a fresh UUID, and
   * whether writing the file (by Pillow or, failing that, as raw bytes)
   * succeeded.
   */
  datatype Io = Io(fetch: Fetch, stamp: string, uid: string, written: bool)

  /** The final file name: a decoded picture gets ".png" if transparent and ".jpg" otherwise, in place of its extension. */
  function FinalName(name: string, picture: Picture): string {
    if picture.Decoded? then SplitExt(name).0 + (if Transparent(picture) then ".png" else ".jpg")
    else name
  }

  /** The name a call with extension `ext` stores its file under. */
  function StoredFileName(prefix: string, ext: string, prompt: string, io: Io): string
    requires io.fetch.Fetched?
  {
    FinalName(FirstName(prefix, io.stamp, io.uid, Fragment(prompt), ext), io.fetch.picture)
  }

  /** `requests` only fetches http and https URLs (scheme in any case, after leading whitespace); anything else raises. */
  predicate HttpUrl(url: string) {
    var u := Lower(LStripSpace(url));
    StartsWith(u, "http://") || StartsWith(u, "https://")
  }

  /** The name the bytes are stored under, or None when the call gives up. */
  function StoredName(prefix: string, url: string, prompt: string, io: Io): Option<string> {
    var ext := UrlExtension(url);
    if !HttpUrl(url) || io.fetch.FetchFailed? || ext.None? || !io.written then None
    else Some(StoredFileName(prefix, ext.value, prompt, io))
  }

  /** The value `download_and_save_image` returns: the served path of the stored file, or the URL it was given. */
  function SavedPath(prefix: string, url: string, prompt: string, io: Io): string {
    var name := StoredName(prefix, url, prompt, io);
    if name.Some? then ImagesRoute + name.value else url
  }

  /** A name part safe for a file name: no dot, no slash. */
  predicate Plain(s: string) {
    '.' !in s && '/' !in s
  }

  /**
   * The extension is the path's own extension, or ".png" when it has none;
   * the check for a missing leading dot never changes anything, because a
   * non-empty `splitext` extension always starts with one. It holds no
   * other dot and no slash.
   */
  lemma PathExtensionShape(path: string)
    ensures PathExtension(path) == (if SplitExt(path).1 == "" then ".png" else SplitExt(path).1)
    ensures var ext := PathExtension(path);
      |ext| >= 1 && ext[0] == '.' && '/' !in ext && '.' !in ext[1..]
  {
    var ext := SplitExt(path).1;
    if ext == "" {
      assert PathExtension(path) == ".png";
      assert ".png"[1..] == "png";
    } else {
      assert StartsWith(ext, ".");
    }
  }

  /** The fragment has no dot and no slash, so it can never change the extension or leave the images directory. */
  lemma FragmentPlain(prompt: string)
    ensures Plain(Fragment(prompt))
  {
    var f := Fragment(prompt);
    FragmentChars(prompt);
    assert forall i :: 0 <= i < |f| ==> f[i] != '.' && f[i] != '/';
  }

  /** The name before Pillow's verdict is `stem + ext`, with a stem free of dots and slashes. */
  lemma FirstNameSplits(prefix: string, stamp: string, uid: string, fragment: string, ext: string)
    requires Plain(prefix) && Plain(stamp) && Plain(uid) && Plain(fragment)
    requires |ext| >= 1 && ext[0] == '.' && '/' !in ext && '.' !in ext[1..]
    ensures var stem := if fragment != "" then prefix + stamp + "_" + uid + "_" + fragment else prefix + stamp + "_" + uid;
      && FirstName(prefix, stamp, uid, fragment, ext) == stem + ext
      && SplitExt(stem + ext) == (stem, ext)
      && Plain(stem)
  {
    var stem := if fragment != "" then prefix + stamp + "_" + uid + "_" + fragment else prefix + stamp + "_" + uid;
    assert forall c :: c in stem ==> c in prefix || c in stamp || c == '_' || c in uid || c in fragment;
    assert Plain(stem);
    assert stem != [] by {
      assert |stem| >= |prefix + stamp + "_"| > 0;
    }
    SplitExtOfStem(stem, ext);
  }

  /**
   * A stored file lands directly in the images directory under
   * `prefix + ts + "_" + id [+ "_" + fragment] + ext`, where the extension is
   * ".jpg" for an opaque decoded picture, ".png" for a transparent one and
   * the URL's own extension when Pillow could not decode the bytes.
   */
  lemma StoredFileNameShape(prefix: string, ext: string, prompt: string, io: Io)
    requires Plain(prefix) && Plain(io.stamp) && Plain(io.uid)
    requires |ext| >= 1 && ext[0] == '.' && '/' !in ext && '.' !in ext[1..]
    requires io.fetch.Fetched?
    ensures var fragment := Fragment(prompt);
      var stem := if fragment != "" then prefix + io.stamp + "_" + io.uid + "_" + fragment else prefix + io.stamp + "_" + io.uid;
      var picture := io.fetch.picture;
      && StoredFileName(prefix, ext, prompt, io)
         == stem + (if picture.Undecoded? then ext else if Transparent(picture) then ".png" else ".jpg")
      && '/' !in StoredFileName(prefix, ext, prompt, io)
  {
    var fragment := Fragment(prompt);
    FragmentPlain(prompt);
    FirstNameSplits(prefix, io.stamp, io.uid, fragment, ext);
  }

  /** The file is stored exactly when the bytes arrived, the URL parsed and the write succeeded; otherwise the URL comes back. */
  lemma SavedPathFallback(prefix: string, url: string, prompt: string, io: Io)
    ensures StoredName(prefix, url, prompt, io).Some? <==> HttpUrl(url) && io.fetch.Fetched? && UrlParse(url).Some? && io.written
    ensures StoredName(prefix, url, prompt, io).None? ==> SavedPath(prefix, url, prompt, io) == url
    ensures StoredName(prefix, url, prompt, io).Some? ==> StartsWith(SavedPath(prefix, url, prompt, io), ImagesRoute)
  {
    var name := StoredName(prefix, url, prompt, io);
    if name.Some? {
      assert (ImagesRoute + name.value)[..|ImagesRoute|] == ImagesRoute;
    }
  }

  /** Once the bytes arrived and the URL parsed, the parsed path, the picture and the write decide. */
  lemma SavedPathOfParsed(prefix: string, url: string, prompt: string, io: Io, u: Url)
    requires HttpUrl(url) && io.fetch.Fetched? && UrlParse(url) == Some(u)
    ensures SavedPath(prefix, url, prompt, io) ==
      if io.written then ImagesRoute + FinalName(FirstName(prefix, io.stamp, io.uid, Fragment(prompt), PathExtension(u.path)), io.fetch.picture)
      else url
  {
  }

  /**
   * The extension step of `download_and_save_image`, which reassigns `ext`
   * in two statements; `PathExtension` is the value it must end with, for
   * use in functions and lemmas.
   */
  method ExtensionOf(path: string) returns (ext: string)
    ensures ext == PathExtension(path)
  {
    ext := SplitExt(path).1;
    if ext == "" {
      ext := ".png";
    }
    if !StartsWith(ext, ".") {
      ext := ".png";
    }
  }

  /**
   * Pillow's step of `download_and_save_image`: a decoded picture is renamed
   * by its transparency, reassigning `filename` as the source does;
   * `FinalName` is the value it must end with.
   */
  method Rename(name: string, picture: Picture) returns (filename: string)
    ensures filename == FinalName(name, picture)
  {
    filename := name;
    if picture.Decoded? {
      var transparent := false;
      if picture.hasAlpha {
        if picture.alphaMin.None? {
          transparent := true;
        } else {
          transparent := picture.alphaMin.value < 255;
        }
      }
      if !transparent {
        filename := SplitExt(name).0 + ".jpg";
      } else {
        filename := SplitExt(name).0 + ".png";
      }
    }
  }

  /**
   * `download_and_save_image`, step by step as the source reassigns its
   * variables: the extension, the first name, Pillow's renaming, the write.
   * `SavedPath` is its specification, which the lemmas above are about.
   */
  method DownloadAndSave(prefix: string, url: string, prompt: string, io: Io) returns (path: string)
    ensures path == SavedPath(prefix, url, prompt, io)
  {
    if !HttpUrl(url) || io.fetch.FetchFailed? {
      return url;
    }
    var parsed := UrlParse(url);
    if parsed.None? {
      return url;
    }
    SavedPathOfParsed(prefix, url, prompt, io, parsed.value);
    var ext := ExtensionOf(parsed.value.path);
    var fragment := Fragment(prompt);
    var filename := FirstName(prefix, io.stamp, io.uid, fragment, ext);
    filename := Rename(filename, io.fetch.picture);
    if !io.written {
      return url;
    }
    path := ImagesRoute + filename;
  }

  /**
   * `download_and_save_image` on whatever the provider put under "url": a
   * string is downloaded; any other value makes `requests` raise, so the
   * value itself comes back.
   */
  function SaveOne(prefix: string, url: Json, prompt: string, io: Io): Json {
    if url.JStr? then JStr(SavedPath(prefix, url.s, prompt, io)) else url
  }

  // ---------------------------------------------------------------------
  // What the tools send and answer
  // ---------------------------------------------------------------------

  /** What a generation tool puts before its error texts. */
  const GeneratePrefix: string := "Error generating image: "

  /** What an editing tool puts before its error texts. */
  const EditPrefix: string := "Error editing image: "

  /** The reply prefix when the provider's answer holds no image URL; the answer's JSON text follows. */
  const NoUrlReply: string := "Error: No image URL in response. Response: "

  /** The part of the request body that depends on the call: prompt, size, image count and source image. */
  datatype Request = Request(prompt: string, size: Option<string>, count: Option<int>, image: Option<string>)

  /** The provider's answer: none (the request raised), or a status, the body text and the body as JSON when it parses. */
  datatype Response = Unreachable | Answered(status: int, text: string, body: Option<Json>)

  /** Why a tool's `except` clause answered. */
  datatype Failure =
    | Foreign                      // raised by code outside the model: the request, the JSON decoder, a bad answer shape
    | FileMissing(path: string)    // FileNotFoundError for this path under the backend directory
    | PublicUrl(shown: string)     // ValueError naming the first 50 characters of a non-local URL
    | InvalidUrl                   // ValueError from `urlparse`

  /** A tool's string result: a plain reply, `prefix + str(e)` for a caught exception, or the JSON of a result object. */
  datatype Outcome = Reply(text: string) | Raised(prefix: string, failure: Failure) | Result(fields: map<string, Json>)

  /** The status and decoding steps every tool takes: the decoded body, or the tool's early answer. */
  function ResponseBody(prefix: string, response: Response): (r: Result<Json, Outcome>)
    ensures r.Ok? <==> response.Answered? && response.status == 200 && response.body.Some?
    ensures response.Answered? && response.status != 200 ==>
      r == Err(Reply(prefix + "API调用失败: status=" + Show(response.status) + ", body=" + response.text))
  {
    match response
    case Unreachable => Err(Raised(prefix, Foreign))
    case Answered(status, text, body) =>
      if status != 200 then Err(Reply(prefix + "API调用失败: status=" + Show(status) + ", body=" + text))
      else if body.None? then Err(Raised(prefix, Foreign))
      else Ok(body.value)
  }
}
