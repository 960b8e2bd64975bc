/** The domain layer: page identity (internal/domain/page.go) and the metadata
    record (internal/domain/metadata.go).

    A Page is derived from the request URL: its ID is the URL's string form,
    its Site is path.Join(host, path), and its FileLocation is the Site escaped
    as one URL path segment, so that it can name a single file. */
module Domain {
  import opened Common

  /** A unique ID for a page: the string form of its URL. */
  datatype PageID = PageID(value: string) {
    /** PageID.String: the underlying string, unchanged. */
    function String(): (s: string)
      ensures PageID(s) == this
    {
      value
    }
  }

  datatype Page = Page(id: PageID, site: string, fileLocation: string)

  /** An instant in UTC (time.Now().UTC() is an input of the model). */
  type Time = int

  /** The metadata computed from a page; the counts are non-negative. */
  datatype MetaData = MetaData(id: PageID, site: string, lastFetched: Time, numLinks: nat, numImages: nat)

  /** A parsed URL with no user info, query or fragment. */
  datatype Url = Url(scheme: string, host: string, path: string)

  /** url.URL.String for such a URL: "scheme:" then "//host" then the path,
      with a '/' put between a host and a path that does not start with one.
      Host and path are written as they are: String's percent-encoding of
      them is not modelled, so this is String only for URLs whose host and
      path hold no character that String escapes. */
  function UrlText(u: Url): string
  {
    (if u.scheme != "" then u.scheme + ":" else "")
    + (if u.scheme != "" || u.host != "" then "//" + u.host else "")
    + (if u.path != "" && u.path[0] != '/' && u.host != "" then "/" else "")
    + u.path
  }

  /** NewPage: ID from the URL's string form, Site = path.Join(host, path),
      FileLocation = url.PathEscape(Site), where `esc` says which characters
      PathEscape percent-encodes. */
  function NewPage(u: Url, esc: char -> bool): Page
  {
    var site := PathJoin(u.host, u.path);
    Page(PageID(UrlText(u)), site, PathEscape(site, esc))
  }

  // ---------------------------------------------------------------------------
  // path.Join and path.Clean

  /** The pieces of `s` between the '/' separators (strings.Split(s, "/")). */
  function Split(s: string): (parts: seq<string>)
    ensures |parts| >= 1
  {
    if s == [] then [[]]
    else
      var rest := Split(s[1..]);
      if s[0] == '/' then [[]] + rest else [[s[0]] + rest[0]] + rest[1..]
  }

  /** The pieces joined with '/' (strings.Join(parts, "/")). */
  function JoinParts(parts: seq<string>): string
  {
    if parts == [] then []
    else if |parts| == 1 then parts[0]
    else parts[0] + "/" + JoinParts(parts[1..])
  }

  /** One path element as path.Clean treats it: empty and "." elements vanish,
      ".." removes the previous name (or stays, in a relative path that has
      nothing left to remove; or vanishes, at the root of a rooted path). */
  function Step(stack: seq<string>, part: string, rooted: bool): seq<string>
  {
    if part == "" || part == "." then stack
    else if part == ".." then
      if |stack| > 0 && stack[|stack| - 1] != ".." then stack[..|stack| - 1]
      else if rooted then stack
      else stack + [".."]
    else stack + [part]
  }

  function Normalize(stack: seq<string>, parts: seq<string>, rooted: bool): seq<string>
    decreases |parts|
  {
    if parts == [] then stack else Normalize(Step(stack, parts[0], rooted), parts[1..], rooted)
  }

  /** path.Clean: the shortest path equivalent to `p` by purely lexical processing. */
  function Clean(p: string): string
  {
    if p == "" then "."
    else
      var rooted := p[0] == '/';
      var body := JoinParts(Normalize([], Split(p), rooted));
      if rooted then "/" + body
      else if body == "" then "."
      else body
  }

  /** path.Join(host, path): the non-empty elements joined with '/' and cleaned. */
  function PathJoin(host: string, path: string): string
  {
    if host != "" then Clean(host + "/" + path)
    else if path != "" then Clean(path)
    else ""
  }

  /** A path element that path.Clean keeps as it is. */
  predicate IsName(s: string)
  {
    s != "" && '/' !in s && s != "." && s != ".."
  }

  /** A URL path that path.Clean leaves alone: empty, or '/' followed by names. */
  ghost predicate IsCleanPath(p: string)
  {
    p == "" || exists segs: seq<string> :: IsCleanSegments(p, segs)
  }

  predicate IsCleanSegments(p: string, segs: seq<string>)
  {
    |segs| >= 1 && (forall i :: 0 <= i < |segs| ==> IsName(segs[i])) && p == "/" + JoinParts(segs)
  }

  lemma {:induction false} JoinSplit(s: string)
    ensures JoinParts(Split(s)) == s
  {
    if s != [] {
      var rest := Split(s[1..]);
      JoinSplit(s[1..]);
      if s[0] == '/' {
        assert Split(s) == [[]] + rest;
      } else if |rest| == 1 {
        assert Split(s) == [[s[0]] + rest[0]];
      } else {
        assert Split(s) == [[s[0]] + rest[0]] + rest[1..];
        assert ([[s[0]] + rest[0]] + rest[1..])[1..] == rest[1..];
      }
    }
  }

  lemma {:induction false} SplitConcat(a: string, b: string)
    ensures Split(a + "/" + b) == Split(a) + Split(b)
  {
    if a == [] {
      assert a + "/" + b == "/" + b;
      assert ("/" + b)[1..] == b;
    } else {
      var s := a + "/" + b;
      assert s[0] == a[0];
      assert s[1..] == a[1..] + "/" + b;
      SplitConcat(a[1..], b);
    }
  }

  lemma {:induction false} SplitNoSlash(a: string)
    requires '/' !in a
    ensures Split(a) == [a]
  {
    if a != [] {
      assert a[0] in a;
      assert forall c :: c in a[1..] ==> c in a;
      SplitNoSlash(a[1..]);
      assert [a[0]] + a[1..] == a;
    }
  }

  lemma {:induction false} SplitJoin(parts: seq<string>)
    requires |parts| >= 1
    requires forall i :: 0 <= i < |parts| ==> '/' !in parts[i]
    ensures Split(JoinParts(parts)) == parts
  {
    if |parts| == 1 {
      SplitNoSlash(parts[0]);
    } else {
      SplitJoin(parts[1..]);
      SplitConcat(parts[0], JoinParts(parts[1..]));
      SplitNoSlash(parts[0]);
    }
  }

  lemma {:induction false} NormalizeNames(stack: seq<string>, parts: seq<string>, rooted: bool)
    requires forall i :: 0 <= i < |parts| ==> IsName(parts[i])
    ensures Normalize(stack, parts, rooted) == stack + parts
    decreases |parts|
  {
    if parts != [] {
      assert IsName(parts[0]);
      NormalizeNames(stack + [parts[0]], parts[1..], rooted);
      assert stack + [parts[0]] + parts[1..] == stack + parts;
    }
  }

  /** Without a path, the Site is the host (path.Join(host, "") cleans "host/"). */
  lemma SiteWithoutPath(host: string)
    requires IsName(host)
    ensures PathJoin(host, "") == host
  {
    SplitConcat(host, "");
    SplitNoSlash(host);
    assert Split(host + "/" + "") == [host, ""];
    assert Normalize([], [host, ""], false) == Normalize([host], [""], false);
  }

  /** With a clean path, the Site is the host followed by the path: the '/'
      that path.Join adds and the path's own leading '/' collapse into one. */
  lemma SiteWithPath(host: string, segs: seq<string>)
    requires IsName(host)
    requires |segs| >= 1 && forall i :: 0 <= i < |segs| ==> IsName(segs[i])
    ensures PathJoin(host, "/" + JoinParts(segs)) == host + "/" + JoinParts(segs)
  {
    var rest := JoinParts(segs);
    var joined := host + "/" + ("/" + rest);
    SplitHostPath(host, segs);
    NormalizeHostPath(host, segs);
    assert JoinParts([host] + segs) == host + "/" + rest by {
      assert ([host] + segs)[1..] == segs;
    }
    assert joined[0] == host[0] && host[0] != '/' by {
      assert host[0] in host;
    }
    CleanRelative(joined, [host] + segs);
  }

  lemma SplitHostPath(host: string, segs: seq<string>)
    requires IsName(host)
    requires |segs| >= 1 && forall i :: 0 <= i < |segs| ==> IsName(segs[i])
    ensures Split(host + "/" + ("/" + JoinParts(segs))) == [host] + ([[]] + segs)
  {
    var rest := JoinParts(segs);
    SplitConcat(host, "/" + rest);
    SplitConcat("", rest);
    assert "" + "/" + rest == "/" + rest;
    SplitNoSlash(host);
    SplitJoin(segs);
  }

  lemma NormalizeHostPath(host: string, segs: seq<string>)
    requires IsName(host)
    requires forall i :: 0 <= i < |segs| ==> IsName(segs[i])
    ensures Normalize([], [host] + ([[]] + segs), false) == [host] + segs
  {
    var tail: seq<string> := [[]] + segs;
    var parts := [host] + tail;
    assert parts[0] == host && parts[1..] == tail;
    assert Step([], host, false) == [host];
    assert Normalize([], parts, false) == Normalize([host], tail, false);
    assert tail[0] == [] && tail[1..] == segs;
    assert Step([host], [], false) == [host];
    assert Normalize([host], tail, false) == Normalize([host], segs, false);
    NormalizeNames([host], segs, false);
  }

  lemma CleanRelative(p: string, names: seq<string>)
    requires p != "" && p[0] != '/'
    requires Normalize([], Split(p), false) == names
    requires JoinParts(names) != ""
    ensures Clean(p) == JoinParts(names)
  {
  }

  /** The Site of a page is its URL without the "scheme://" prefix, whenever
      the host is a single name, the path is already clean, and neither holds
      a character that url.URL.String would percent-encode (the model's
      UrlText writes host and path as they are). */
  lemma SiteIsUrlWithoutScheme(u: Url, esc: char -> bool)
    requires u.scheme != "" && IsName(u.host) && IsCleanPath(u.path)
    requires forall i :: 0 <= i < |u.host| ==> IsKept(u.host[i])
    requires forall i :: 0 <= i < |u.path| ==> IsKept(u.path[i]) || u.path[i] == '/'
    ensures UrlText(u) == u.scheme + "://" + NewPage(u, esc).site
    ensures NewPage(u, esc).id.String() == u.scheme + "://" + NewPage(u, esc).site
  {
    if u.path == "" {
      SiteWithoutPath(u.host);
      UrlTextWithoutPath(u.scheme, u.host);
    } else {
      var segs :| IsCleanSegments(u.path, segs);
      SiteWithPath(u.host, segs);
      UrlWithRootedPath(u.scheme, u.host, JoinParts(segs));
    }
  }

  lemma UrlWithRootedPath(scheme: string, host: string, rest: string)
    requires scheme != ""
    ensures UrlText(Url(scheme, host, "/" + rest)) == scheme + "://" + (host + "/" + rest)
  {
    UrlTextWithPath(scheme, host, "/" + rest);
  }

  // ---------------------------------------------------------------------------
  // url.PathEscape: percent-encoding of one path segment (section 2.1 of RFC 3986)

  predicate IsAsciiLetter(c: char) { 'a' <= c <= 'z' || 'A' <= c <= 'Z' }

  predicate IsDigit(c: char) { '0' <= c <= '9' }

  /** What the escape predicate is known to do: '/' is escaped, and letters,
      digits, '.' and ':' are kept. */
  ghost predicate ValidEscape(esc: char -> bool)
  {
    esc('/') && forall c :: (IsAsciiLetter(c) || IsDigit(c) || c == '.' || c == ':') ==> !esc(c)
  }

  /** The UTF-8 encoding of one character. */
  function Utf8(c: char): (bytes: seq<byte>)
    ensures 1 <= |bytes| <= 4
    ensures (c as int < 0x80) == (|bytes| == 1)
    ensures c as int < 0x80 ==> bytes[0] == c as int
  {
    var n := c as int;
    if n < 0x80 then [n as byte]
    else if n < 0x800 then [(0xC0 + n / 64) as byte, (0x80 + n % 64) as byte]
    else if n < 0x10000 then [(0xE0 + n / 4096) as byte, (0x80 + (n / 64) % 64) as byte, (0x80 + n % 64) as byte]
    else [(0xF0 + n / 262144) as byte, (0x80 + (n / 4096) % 64) as byte, (0x80 + (n / 64) % 64) as byte, (0x80 + n % 64) as byte]
  }

  /** The upper-case hexadecimal digit for 0 <= d < 16. */
  function HexDigit(d: nat): char
    requires d < 16
  {
    if d < 10 then ('0' as int + d) as char else ('A' as int + d - 10) as char
  }

  /** "%XY" for every byte, with upper-case hexadecimal digits. */
  function Percent(bytes: seq<byte>): string
  {
    if bytes == [] then []
    else ['%', HexDigit(bytes[0] / 16), HexDigit(bytes[0] % 16)] + Percent(bytes[1..])
  }

  function EscapeChar(c: char, esc: char -> bool): string
  {
    if esc(c) then Percent(Utf8(c)) else [c]
  }

  /** url.PathEscape, with the escape set given by `esc`. */
  function PathEscape(s: string, esc: char -> bool): string
  {
    if s == [] then [] else EscapeChar(s[0], esc) + PathEscape(s[1..], esc)
  }

  function HexValue(c: char): nat
  {
    if '0' <= c <= '9' then (c - '0') as nat
    else if 'A' <= c <= 'F' then (c - 'A') as nat + 10
    else 0
  }

  predicate IsHex(c: char) { '0' <= c <= '9' || 'A' <= c <= 'F' }

  /** The inverse of PathEscape for escapes of single-byte characters:
      "%XY" becomes the character with code XY, anything else is kept. */
  function Unescape(t: string): string
  {
    if t == [] then []
    else if |t| >= 3 && t[0] == '%' && IsHex(t[1]) && IsHex(t[2]) then
      [(HexValue(t[1]) * 16 + HexValue(t[2])) as char] + Unescape(t[3..])
    else [t[0]] + Unescape(t[1..])
  }

  lemma {:induction false} PercentHasNoSlash(bytes: seq<byte>)
    ensures '/' !in Percent(bytes)
  {
    if bytes != [] {
      PercentHasNoSlash(bytes[1..]);
    }
  }

  /** FileLocation is a single path segment: once '/' is escaped, no '/' is left. */
  lemma {:induction false} EscapedHasNoSlash(s: string, esc: char -> bool)
    requires esc('/')
    ensures '/' !in PathEscape(s, esc)
  {
    if s != [] {
      EscapedHasNoSlash(s[1..], esc);
      if esc(s[0]) {
        PercentHasNoSlash(Utf8(s[0]));
      }
    }
  }

  /** PathEscape leaves a string unchanged exactly when none of its characters is escaped. */
  lemma {:induction false} EscapeIdentityIff(s: string, esc: char -> bool)
    ensures PathEscape(s, esc) == s <==> forall i :: 0 <= i < |s| ==> !esc(s[i])
  {
    EscapeLength(s, esc);
    if forall i :: 0 <= i < |s| ==> !esc(s[i]) {
      EscapeIdentity(s, esc);
    }
  }

  lemma {:induction false} EscapeIdentity(s: string, esc: char -> bool)
    requires forall i :: 0 <= i < |s| ==> !esc(s[i])
    ensures PathEscape(s, esc) == s
  {
    if s != [] {
      assert !esc(s[0]);
      EscapeIdentity(s[1..], esc);
      assert [s[0]] + s[1..] == s;
    }
  }

  lemma {:induction false} EscapeLength(s: string, esc: char -> bool)
    ensures |PathEscape(s, esc)| >= |s|
    ensures (exists i :: 0 <= i < |s| && esc(s[i])) ==> |PathEscape(s, esc)| > |s|
  {
    if s != [] {
      EscapeLength(s[1..], esc);
      if exists i :: 0 <= i < |s| && esc(s[i]) {
        var i :| 0 <= i < |s| && esc(s[i]);
        if i > 0 {
          assert esc(s[1..][i - 1]);
        } else {
          assert |Percent(Utf8(s[0]))| >= 3;
        }
      }
    }
  }

  lemma HexRoundTrip(b: byte)
    ensures IsHex(HexDigit(b / 16)) && IsHex(HexDigit(b % 16))
    ensures HexValue(HexDigit(b / 16)) * 16 + HexValue(HexDigit(b % 16)) == b
  {
    assert HexValue(HexDigit(b / 16)) == b / 16;
    assert HexValue(HexDigit(b % 16)) == b % 16;
  }

  /** Unescaping undoes PathEscape, provided '%' itself is escaped and only
      single-byte characters are: then the encoding loses nothing. */
  lemma {:induction false} EscapeRoundTrip(s: string, esc: char -> bool)
    requires esc('%')
    requires forall i :: 0 <= i < |s| && esc(s[i]) ==> s[i] as int < 0x80
    ensures Unescape(PathEscape(s, esc)) == s
  {
    if s != [] {
      var c, rest := s[0], PathEscape(s[1..], esc);
      assert PathEscape(s, esc) == EscapeChar(c, esc) + rest;
      EscapeRoundTrip(s[1..], esc);
      if esc(c) {
        UnescapePercent(c, rest);
      } else {
        UnescapeKept(c, rest);
      }
      assert [c] + s[1..] == s;
    }
  }

  /** The escape of a single-byte character unescapes back to it. */
  lemma UnescapePercent(c: char, rest: string)
    requires c as int < 0x80
    ensures Unescape(Percent(Utf8(c)) + rest) == [c] + Unescape(rest)
  {
    var b := c as int as byte;
    assert Utf8(c) == [b];
    HexRoundTrip(b);
    var t := ['%', HexDigit(b / 16), HexDigit(b % 16)] + rest;
    assert Percent([b]) == ['%', HexDigit(b / 16), HexDigit(b % 16)] + Percent([]);
    assert Percent(Utf8(c)) + rest == t;
    assert t[3..] == rest;
  }

  /** A character other than '%' unescapes to itself. */
  lemma UnescapeKept(c: char, rest: string)
    requires c != '%'
    ensures Unescape([c] + rest) == [c] + Unescape(rest)
  {
    assert ([c] + rest)[1..] == rest;
  }

  /** FileLocation never contains '/', and it equals the Site exactly when
      PathEscape keeps every character of the Site. */
  lemma FileLocationIsOneSegment(u: Url, esc: char -> bool)
    requires ValidEscape(esc)
    ensures '/' !in NewPage(u, esc).fileLocation
    ensures var p := NewPage(u, esc);
      p.fileLocation == p.site <==> forall i :: 0 <= i < |p.site| ==> !esc(p.site[i])
  {
    var p := NewPage(u, esc);
    EscapedHasNoSlash(p.site, esc);
    EscapeIdentityIff(p.site, esc);
  }

  // ---------------------------------------------------------------------------
  // The pages of internal/domain/page_test.go and internal/fetcher/fetcher_test.go

  predicate IsKept(c: char) { IsAsciiLetter(c) || IsDigit(c) || c == '.' || c == ':' }

  lemma KeptUnescaped(s: string, esc: char -> bool)
    requires ValidEscape(esc)
    requires forall i :: 0 <= i < |s| ==> IsKept(s[i])
    ensures PathEscape(s, esc) == s
  {
    EscapeIdentity(s, esc);
  }

  lemma UrlTextWithoutPath(scheme: string, host: string)
    requires scheme != ""
    ensures UrlText(Url(scheme, host, "")) == scheme + "://" + host
  {
  }

  lemma {:induction false} EscapeConcat(a: string, b: string, esc: char -> bool)
    ensures PathEscape(a + b, esc) == PathEscape(a, esc) + PathEscape(b, esc)
  {
    if a != [] {
      assert (a + b)[0] == a[0] && (a + b)[1..] == a[1..] + b;
      EscapeConcat(a[1..], b, esc);
    } else {
      assert a + b == b;
    }
  }

  /** A URL without a path: ID is "scheme://host", Site and FileLocation are the host. */
  lemma PageWithoutPath(scheme: string, host: string, esc: char -> bool)
    requires ValidEscape(esc) && scheme != "" && IsName(host)
    requires forall i :: 0 <= i < |host| ==> IsKept(host[i])
    ensures NewPage(Url(scheme, host, ""), esc) == Page(PageID(scheme + "://" + host), host, host)
  {
    UrlTextWithoutPath(scheme, host);
    SiteWithoutPath(host);
    KeptUnescaped(host, esc);
  }

  /** A URL with a one-name path: the Site is host + "/" + name and the
      FileLocation escapes that '/' as "%2F". */
  lemma PageWithName(scheme: string, host: string, name: string, esc: char -> bool)
    requires ValidEscape(esc) && scheme != "" && IsName(host) && IsName(name)
    requires forall i :: 0 <= i < |host| ==> IsKept(host[i])
    requires forall i :: 0 <= i < |name| ==> IsKept(name[i])
    ensures NewPage(Url(scheme, host, "/" + name), esc)
         == Page(PageID(scheme + "://" + host + "/" + name), host + "/" + name, host + "%2F" + name)
  {
    UrlTextWithPath(scheme, host, "/" + name);
    assert scheme + "://" + host + ("/" + name) == scheme + "://" + host + "/" + name;
    SiteWithName(host, name);
    EscapeSlashJoin(host, name, esc);
  }

  lemma UrlTextWithPath(scheme: string, host: string, path: string)
    requires scheme != "" && path != "" && path[0] == '/'
    ensures UrlText(Url(scheme, host, path)) == scheme + "://" + host + path
  {
  }

  lemma SiteWithName(host: string, name: string)
    requires IsName(host) && IsName(name)
    ensures PathJoin(host, "/" + name) == host + "/" + name
  {
    assert JoinParts([name]) == name;
    SiteWithPath(host, [name]);
  }

  lemma EscapeSlashJoin(host: string, name: string, esc: char -> bool)
    requires ValidEscape(esc)
    requires forall i :: 0 <= i < |host| ==> IsKept(host[i])
    requires forall i :: 0 <= i < |name| ==> IsKept(name[i])
    ensures PathEscape(host + "/" + name, esc) == host + "%2F" + name
  {
    EscapedSlash(esc);
    EscapeConcat(host + "/", name, esc);
    EscapeConcat(host, "/", esc);
    KeptUnescaped(host, esc);
    KeptUnescaped(name, esc);
  }

  /** '/' becomes "%2F". */
  lemma EscapedSlash(esc: char -> bool)
    requires esc('/')
    ensures PathEscape("/", esc) == "%2F"
  {
    assert Utf8('/') == [47];
    assert Percent([47]) == ['%', HexDigit(2), HexDigit(15)] + Percent([]);
    assert PathEscape("/", esc) == EscapeChar('/', esc) + PathEscape([], esc);
  }

  lemma GoogleNames()
    ensures IsName("www.google.com") && IsName("about") && IsName("127.0.0.1:8080")
    ensures forall i :: 0 <= i < |"www.google.com"| ==> IsKept("www.google.com"[i])
    ensures forall i :: 0 <= i < |"about"| ==> IsKept("about"[i])
    ensures forall i :: 0 <= i < |"127.0.0.1:8080"| ==> IsKept("127.0.0.1:8080"[i])
  {
  }

  /** The page of "https://www.google.com" (internal/domain/page_test.go). */
  lemma GoogleHomePage(esc: char -> bool)
    requires ValidEscape(esc)
    ensures NewPage(Url("https", "www.google.com", ""), esc)
         == Page(PageID("https://www.google.com"), "www.google.com", "www.google.com")
  {
    assert "https" + "://" + "www.google.com" == "https://www.google.com";
    GoogleNames();
    PageWithoutPath("https", "www.google.com", esc);
  }

  /** The page of "https://www.google.com/about" (internal/domain/page_test.go). */
  lemma GoogleAboutPage(esc: char -> bool)
    requires ValidEscape(esc)
    ensures NewPage(Url("https", "www.google.com", "/about"), esc)
         == Page(PageID("https://www.google.com/about"), "www.google.com/about", "www.google.com%2Fabout")
  {
    assert "/" + "about" == "/about";
    assert "https" + "://" + "www.google.com" + "/" + "about" == "https://www.google.com/about";
    assert "www.google.com" + "/" + "about" == "www.google.com/about";
    assert "www.google.com" + "%2F" + "about" == "www.google.com%2Fabout";
    GoogleNames();
    PageWithName("https", "www.google.com", "about", esc);
  }

  /** The page of a local test server "http://127.0.0.1:8080"
      (internal/fetcher/fetcher_test.go): Site and FileLocation are the URL without "http://". */
  lemma LocalServerPage(esc: char -> bool)
    requires ValidEscape(esc)
    ensures NewPage(Url("http", "127.0.0.1:8080", ""), esc)
         == Page(PageID("http://127.0.0.1:8080"), "127.0.0.1:8080", "127.0.0.1:8080")
  {
    assert "http" + "://" + "127.0.0.1:8080" == "http://127.0.0.1:8080";
    GoogleNames();
    PageWithoutPath("http", "127.0.0.1:8080", esc);
  }
}
