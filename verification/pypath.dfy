/**
 * The parts of Python's standard path and URL handling that the image tools
 * and the upload route rely on: `os.path.splitext` (POSIX), the name and
 * suffix of a `pathlib.PurePosixPath`, and `urllib.parse.urlparse` with its
 * `hostname` property, as CPython 3.12 defines them.
 */
module PyPath {
  import opened Common

  // ---------------------------------------------------------------------
  // os.path.splitext
  // ---------------------------------------------------------------------

  /** Some character of `p[lo..hi]` is not a dot. */
  predicate HasNonDot(p: string, lo: int, hi: int)
    requires 0 <= lo <= hi <= |p|
    decreases hi - lo
  {
    lo < hi && (p[lo] != '.' || HasNonDot(p, lo + 1, hi))
  }

  /**
   * `os.path.splitext(p)`: the extension runs from the last dot to the end,
   * provided that dot lies in the last path component and is not part of a
   * run of leading dots of that component; otherwise there is none.
   */
  function SplitExt(p: string): (r: (string, string))
    ensures r.0 + r.1 == p
    ensures r.1 == "" || (r.1[0] == '.' && '/' !in r.1 && '.' !in r.1[1..])
  {
    var sep := LastIndexOf(p, '/');
    var dot := LastIndexOf(p, '.');
    if dot > sep && HasNonDot(p, sep + 1, dot) then
      assert forall i :: dot < i < |p| ==> p[i] != '.' && p[i] != '/';
      assert p[..dot] + p[dot..] == p;
      (p[..dot], p[dot..])
    else (p, "")
  }

  /** A stem without dots or slashes keeps its extension apart: `splitext(stem + ext) == (stem, ext)`. */
  lemma SplitExtOfStem(stem: string, ext: string)
    requires stem != [] && '.' !in stem && '/' !in stem
    requires ext == "" || (ext[0] == '.' && '/' !in ext && '.' !in ext[1..])
    ensures SplitExt(stem + ext) == (stem, ext)
  {
    var p := stem + ext;
    assert forall i :: 0 <= i < |stem| ==> p[i] == stem[i];
    assert LastIndexOf(p, '/') == -1;
    if ext == "" {
      assert p == stem;
      assert LastIndexOf(p, '.') == -1;
    } else {
      assert p[|stem|] == '.';
      assert forall i :: |stem| < i < |p| ==> p[i] == ext[i - |stem|] && p[i] != '.';
      assert LastIndexOf(p, '.') == |stem|;
      assert p[0] == stem[0] != '.';
      assert p[..|stem|] == stem && p[|stem|..] == ext;
    }
  }

  // ---------------------------------------------------------------------
  // pathlib
  // ---------------------------------------------------------------------

  /** The components pathlib keeps: the pieces between slashes, minus empty ones and ".". */
  function Components(pieces: seq<string>): (r: seq<string>)
    ensures forall i :: 0 <= i < |r| ==> r[i] != "" && r[i] != "."
  {
    if pieces == [] then []
    else (if pieces[0] == "" || pieces[0] == "." then [] else [pieces[0]]) + Components(pieces[1..])
  }

  /** `PurePosixPath(p).name`: the last component, or "" when there is none. */
  function PathName(p: string): (r: string)
    ensures '/' !in r
  {
    var cs := Components(Split(p, '/'));
    if cs == [] then "" else
      assert cs[|cs| - 1] in cs;
      ComponentsFrom(Split(p, '/'), cs[|cs| - 1]);
      cs[|cs| - 1]
  }

  lemma {:induction false} ComponentsFrom(pieces: seq<string>, c: string)
    requires c in Components(pieces)
    ensures c in pieces
  {
    if pieces != [] && c !in (if pieces[0] == "" || pieces[0] == "." then [] else [pieces[0]]) {
      ComponentsFrom(pieces[1..], c);
    }
  }

  /**
   * `PurePosixPath(p).suffix`: from the last dot of the name, provided the
   * dot is neither the first nor the last character of the name.
   */
  function Suffix(p: string): (r: string)
    ensures r == "" || (r[0] == '.' && |r| >= 2 && '.' !in r[1..] && '/' !in r)
  {
    var name := PathName(p);
    var i := LastIndexOf(name, '.');
    if 0 < i < |name| - 1 then
      assert forall k :: i < k < |name| ==> name[k] != '.';
      name[i..]
    else ""
  }

  /** A file name with a proper extension has that extension as its suffix, whatever directories lead to it. */
  lemma SuffixOfFile(dir: string, stem: string, ext: string)
    requires stem != "" && '.' !in stem && '/' !in stem
    requires |ext| >= 2 && ext[0] == '.' && '.' !in ext[1..] && '/' !in ext
    ensures Suffix(dir + "/" + stem + ext) == ext
  {
    var name := stem + ext;
    assert '/' !in name;
    assert dir + "/" + stem + ext == dir + "/" + name;
    PathNameOfLast(dir, name);
    LastDot(stem, ext);
    assert name[|stem|..] == ext;
  }

  /** The dot that starts a dot-free extension is the last dot of `stem + ext`. */
  lemma LastDot(stem: string, ext: string)
    requires |ext| >= 1 && ext[0] == '.' && '.' !in ext[1..]
    ensures LastIndexOf(stem + ext, '.') == |stem|
  {
    var name := stem + ext;
    assert name[|stem|] == '.';
    assert forall k :: |stem| < k < |name| ==> name[k] == ext[1..][k - |stem| - 1];
    LastIndexOfAt(name, '.', |stem|);
  }

  /** Any position holding `c` with no `c` after it is where `LastIndexOf` stops. */
  lemma {:induction false} LastIndexOfAt(s: string, c: char, k: nat)
    requires k < |s| && s[k] == c
    requires forall i :: k < i < |s| ==> s[i] != c
    ensures LastIndexOf(s, c) == k
    decreases |s|
  {
    if k < |s| - 1 {
      var t := s[..|s| - 1];
      assert forall i :: k < i < |t| ==> t[i] == s[i];
      LastIndexOfAt(t, c, k);
    }
  }

  /** The name of `dir/name` is `name` when `name` is a plain component. */
  lemma PathNameOfLast(dir: string, name: string)
    requires '/' !in name && name != "" && name != "."
    ensures PathName(dir + "/" + name) == name
  {
    var p := dir + "/" + name;
    var pieces := Split(p, '/');
    SplitLast(dir, name);
    assert pieces == Split(dir, '/') + [name];
    ComponentsAppend(Split(dir, '/'), [name]);
    assert Components([name]) == [name] + Components([name][1..]);
  }

  lemma {:induction false} SplitLast(dir: string, name: string)
    requires '/' !in name
    ensures Split(dir + "/" + name, '/') == Split(dir, '/') + [name]
    decreases |dir|
  {
    var k := IndexOf(dir, '/');
    if k == |dir| {
      SplitTwoComponents(dir, name);
    } else {
      SplitLast(dir[k + 1..], name);
      SplitLastStep(dir, name, k);
    }
  }

  lemma SplitTwoComponents(dir: string, name: string)
    requires '/' !in name && IndexOf(dir, '/') == |dir|
    ensures Split(dir + "/" + name, '/') == Split(dir, '/') + [name]
  {
    SplitNone(dir, '/');
    assert dir + "/" + name == dir + ['/'] + name;
    SplitTwo(dir, name, '/');
  }

  /** Splitting `dir/name` at the first slash of `dir` leaves the rest of `dir` before the last component. */
  lemma SplitLastStep(dir: string, name: string, k: nat)
    requires k == IndexOf(dir, '/') && k < |dir|
    requires Split(dir[k + 1..] + "/" + name, '/') == Split(dir[k + 1..], '/') + [name]
    ensures Split(dir + "/" + name, '/') == Split(dir, '/') + [name]
  {
    var a, rest := dir[..k], dir[k + 1..];
    assert '/' !in a;
    SlashAt(dir, name, k);
    SplitHead(a, rest, '/');
    SplitHead(a, rest + "/" + name, '/');
    ConsSnoc(a, Split(rest, '/'), name);
  }

  lemma ConsSnoc<T>(x: T, xs: seq<T>, y: T)
    ensures [x] + (xs + [y]) == ([x] + xs) + [y]
  {
  }

  /** A text with a slash at `k` is the part before it, the slash and the part after it, also once `/name` is appended. */
  lemma SlashAt(dir: string, name: string, k: nat)
    requires k < |dir| && dir[k] == '/'
    ensures dir == dir[..k] + ['/'] + dir[k + 1..]
    ensures dir + "/" + name == dir[..k] + ['/'] + (dir[k + 1..] + "/" + name)
  {
    assert dir == dir[..k] + ['/'] + dir[k + 1..];
  }

  /** The first occurrence inside the prefix is the first occurrence overall. */
  lemma IndexOfPrefix(a: string, b: string, c: char)
    requires IndexOf(a, c) < |a|
    ensures IndexOf(a + b, c) == IndexOf(a, c)
  {
    var k := IndexOf(a, c);
    assert (a + b)[k] == c;
    assert forall i :: 0 <= i < k ==> (a + b)[i] == a[i];
    IndexOfFirst(a + b, c, k);
  }

  /** Any position holding `c` with no `c` before it is where `IndexOf` stops. */
  lemma IndexOfFirst(s: string, c: char, k: nat)
    requires k < |s| && s[k] == c
    requires forall i :: 0 <= i < k ==> s[i] != c
    ensures IndexOf(s, c) == k
  {
  }

  lemma {:induction false} ComponentsAppend(a: seq<string>, b: seq<string>)
    ensures Components(a + b) == Components(a) + Components(b)
  {
    if a == [] {
      assert a + b == b;
    } else {
      assert (a + b)[0] == a[0];
      assert (a + b)[1..] == a[1..] + b;
      ComponentsAppend(a[1..], b);
      AppendAssoc(if a[0] == "" || a[0] == "." then [] else [a[0]], Components(a[1..]), Components(b));
    }
  }

  // ---------------------------------------------------------------------
  // urllib.parse
  // ---------------------------------------------------------------------

  /** The six fields of `urlparse`. */
  datatype Url = Url(scheme: string, netloc: string, path: string, params: string, query: string, fragment: string)

  /** The characters `urlsplit` allows in a scheme. */
  predicate SchemeChar(c: char) {
    'a' <= c <= 'z' || 'A' <= c <= 'Z' || '0' <= c <= '9' || c == '+' || c == '-' || c == '.'
  }

  predicate AsciiAlpha(c: char) {
    'a' <= c <= 'z' || 'A' <= c <= 'Z'
  }

  /** The schemes whose path `urlparse` splits at ';' into path and params. */
  predicate UsesParams(scheme: string) {
    scheme in ["", "ftp", "hdl", "prospero", "http", "imap", "https", "shttp", "rtsp", "rtsps",
               "rtspu", "sip", "sips", "mms", "sftp", "tel"]
  }

  /** Leading C0 control characters and spaces are dropped. */
  function LStripControl(s: string): (r: string)
    ensures |r| <= |s| && r == s[|s| - |r|..]
  {
    if |s| > 0 && s[0] <= ' ' then LStripControl(s[1..]) else s
  }

  /** Tabs, carriage returns and line feeds are removed wherever they are. */
  function RemoveUnsafe(s: string): (r: string)
    ensures '\t' !in r && '\r' !in r && '\n' !in r
  {
    if s == [] then []
    else (if s[0] in "\t\r\n" then [] else [s[0]]) + RemoveUnsafe(s[1..])
  }

  /** The index of the first of '/', '?' or '#', or |s|. */
  function NetlocEnd(s: string): (k: nat)
    ensures k <= |s|
  {
    if s == [] || s[0] in "/?#" then 0 else 1 + NetlocEnd(s[1..])
  }

  /** Every character of `s` may appear in a scheme. */
  predicate SchemeChars(s: string) {
    s == [] || (SchemeChar(s[0]) && SchemeChars(s[1..]))
  }

  /** The scheme and the rest when `url` starts with a valid scheme followed by ':'. */
  function SplitScheme(url: string): (string, string) {
    var i := IndexOf(url, ':');
    if 0 < i < |url| && AsciiAlpha(url[0]) && SchemeChars(url[..i]) then
      (Lower(url[..i]), url[i + 1..])
    else ("", url)
  }

  /** After "//", the network location runs up to the first '/', '?' or '#'; without "//" there is none. */
  function SplitNetloc(rest: string): (string, string) {
    if |rest| >= 2 && rest[..2] == "//" then
      var s := rest[2..];
      var end := NetlocEnd(s);
      (s[..end], s[end..])
    else ("", rest)
  }

  /** `s.split(c, 1)` when `c` is in `s`, and `(s, "")` otherwise. */
  function SplitAt(s: string, c: char): (string, string) {
    var k := IndexOf(s, c);
    if k < |s| then (s[..k], s[k + 1..]) else (s, "")
  }

  /** `_splitparams`: params start at the first ';' of the last segment (of the whole path without a '/'). */
  function SplitParams(path: string): (string, string) {
    var slash := LastIndexOf(path, '/');
    var start := if slash < 0 then 0 else slash;
    var i := start + IndexOf(path[start..], ';');
    if i == |path| then (path, "") else (path[..i], path[i + 1..])
  }

  /**
   * `urlparse(url)`; None where it raises ValueError because the network
   * location has an unmatched '[' or ']'.
   */
  function UrlParse(url: string): Option<Url> {
    var (scheme, rest) := SplitScheme(RemoveUnsafe(LStripControl(url)));
    var (netloc, tail) := SplitNetloc(rest);
    if ('[' in netloc) != (']' in netloc) then None
    else
      var (beforeFragment, fragment) := SplitAt(tail, '#');
      var (path, query) := SplitAt(beforeFragment, '?');
      var (p, params) := if UsesParams(scheme) && ';' in path then SplitParams(path) else (path, "");
      Some(Url(scheme, netloc, p, params, query, fragment))
  }

  /**
   * `urlparse(url).hostname`: the host part of the network location after
   * any user information, without port, lower-cased up to a '%' zone; None
   * when it is empty.
   */
  function Hostname(netloc: string): (r: Option<string>)
    ensures r.Some? ==> r.value != ""
  {
    var at := LastIndexOf(netloc, '@');
    var hostinfo := netloc[at + 1..];
    var open := IndexOf(hostinfo, '[');
    var host :=
      if open < |hostinfo| then
        var bracketed := hostinfo[open + 1..];
        bracketed[..IndexOf(bracketed, ']')]
      else hostinfo[..IndexOf(hostinfo, ':')];
    if host == "" then None
    else
      var z := IndexOf(host, '%');
      Some(Lower(host[..z]) + host[z..])
  }

  /**
   * A URL `scheme://host[:port]/path` with a plain host and path parses into
   * exactly those parts.
   */
  lemma UrlParseOfPlain(scheme: string, netloc: string, path: string)
    requires scheme != "" && forall k :: 0 <= k < |scheme| ==> AsciiAlpha(scheme[k])
    requires forall c :: c in netloc ==> c !in "/?#[]\t\r\n"
    requires |path| > 0 && path[0] == '/' && forall c :: c in path ==> c !in "?#;\t\r\n"
    ensures UrlParse(scheme + "://" + netloc + path) == Some(Url(Lower(scheme), netloc, path, "", "", ""))
  {
    var url := scheme + "://" + netloc + path;
    var rest := "//" + netloc + path;
    assert url == scheme + (":" + rest);
    SchemeOfPlain(scheme, rest);
    NetlocOfPlain(netloc, path);
    assert '[' !in netloc && ']' !in netloc;
    IndexOfMissing(path, '#');
    assert SplitAt(path, '#') == (path, "");
    IndexOfMissing(path, '?');
    assert SplitAt(path, '?') == (path, "");
    assert ';' !in path;
  }

  lemma SchemeOfPlain(scheme: string, rest: string)
    requires scheme != "" && forall k :: 0 <= k < |scheme| ==> AsciiAlpha(scheme[k])
    requires forall c :: c in rest ==> c !in "\t\r\n"
    ensures SplitScheme(RemoveUnsafe(LStripControl(scheme + (":" + rest)))) == (Lower(scheme), rest)
  {
    var url := scheme + (":" + rest);
    assert url[0] == scheme[0];
    assert LStripControl(url) == url;
    assert forall c :: c in url ==> c in scheme || c == ':' || c in rest;
    assert forall c :: c in scheme ==> AsciiAlpha(c);
    RemoveUnsafeNone(url);
    IndexOfAfter(scheme, ":" + rest, ':');
    assert url[..|scheme|] == scheme;
    SchemeCharsOfLetters(scheme);
    assert url[|scheme| + 1..] == rest;
  }

  lemma {:induction false} SchemeCharsOfLetters(s: string)
    requires forall k :: 0 <= k < |s| ==> AsciiAlpha(s[k])
    ensures SchemeChars(s)
  {
    if s != [] {
      SchemeCharsOfLetters(s[1..]);
    }
  }

  lemma NetlocOfPlain(netloc: string, path: string)
    requires forall c :: c in netloc ==> c !in "/?#"
    requires |path| > 0 && path[0] == '/'
    ensures SplitNetloc("//" + netloc + path) == (netloc, path)
  {
    var rest := "//" + netloc + path;
    assert rest[..2] == "//";
    var after := rest[2..];
    assert after == netloc + path;
    NetlocEndAt(netloc, path);
    assert after[..|netloc|] == netloc;
    assert after[|netloc|..] == path;
  }

  lemma {:induction false} RemoveUnsafeNone(s: string)
    requires forall c :: c in s ==> c !in "\t\r\n"
    ensures RemoveUnsafe(s) == s
  {
    if s != [] {
      assert s[0] in s;
      assert forall c :: c in s[1..] ==> c in s;
      RemoveUnsafeNone(s[1..]);
    }
  }

  lemma {:induction false} NetlocEndAt(netloc: string, path: string)
    requires forall c :: c in netloc ==> c !in "/?#"
    requires |path| > 0 && path[0] == '/'
    ensures NetlocEnd(netloc + path) == |netloc|
  {
    if netloc != [] {
      assert netloc[0] in netloc;
      assert (netloc + path)[1..] == netloc[1..] + path;
      assert forall c :: c in netloc[1..] ==> c in netloc;
      NetlocEndAt(netloc[1..], path);
    } else {
      assert netloc + path == path;
    }
  }

  lemma IndexOfMissing(s: string, c: char)
    requires c !in s
    ensures IndexOf(s, c) == |s|
  {
  }

  lemma LastIndexOfMissing(s: string, c: char)
    requires c !in s
    ensures LastIndexOf(s, c) == -1
  {
  }

  /** A plain `host` or `host:port` has `host`, lower-cased, as its hostname. */
  lemma HostnameOfPlain(host: string, port: string)
    requires host != "" && '@' !in host && '[' !in host && ':' !in host && '%' !in host
    requires '@' !in port && '[' !in port
    requires port == "" || port[0] == ':'
    ensures Hostname(host + port) == Some(Lower(host))
  {
    var n := host + port;
    HostOfPlain(host, port);
    LastIndexOfMissing(n, '@');
    IndexOfMissing(host, '%');
    HostnameOfParts(n, host);
  }

  /** The steps of `hostname` on a network location without '@', '[' or '%' before its port. */
  lemma HostnameOfParts(n: string, host: string)
    requires LastIndexOf(n, '@') == -1 && IndexOf(n, '[') == |n|
    requires n[..IndexOf(n, ':')] == host && host != "" && IndexOf(host, '%') == |host|
    ensures Hostname(n) == Some(Lower(host))
  {
    assert n[0..] == n;
    assert host[..|host|] == host && host[|host|..] == [];
    assert Lower(host) + [] == Lower(host);
  }

  lemma HostOfPlain(host: string, port: string)
    requires '@' !in host && '[' !in host && ':' !in host
    requires '@' !in port && '[' !in port
    requires port == "" || port[0] == ':'
    ensures var n := host + port; n[LastIndexOf(n, '@') + 1..] == n && IndexOf(n, '[') == |n| && n[..IndexOf(n, ':')] == host
  {
    var n := host + port;
    assert '@' !in n && '[' !in n;
    LastIndexOfMissing(n, '@');
    IndexOfMissing(n, '[');
    assert n[0..] == n;
    if port == "" {
      assert n == host;
      IndexOfMissing(host, ':');
    } else {
      IndexOfAfter(host, port, ':');
      assert IndexOf(port, ':') == 0;
      assert n[..|host|] == host;
    }
  }
}
