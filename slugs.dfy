/** The slug normaliser, in its three copies: `slug_from` (zealy_socials.py),
    `normalizeSlug` (src/utils.ts) and `slugFrom` (browser-service/server.js and
    browser-service/test-improved.js). Each turns one input line into a
    community slug or `""`. */
module Slugs {
  import opened Common
  import opened Text

  predicate IsAsciiLetter(c: char) {
    ('a' <= c <= 'z') || ('A' <= c <= 'Z')
  }

  /** Characters allowed in a URL scheme after its first letter. */
  predicate IsSchemeChar(c: char) {
    IsAsciiLetter(c) || ('0' <= c <= '9') || c == '+' || c == '-' || c == '.'
  }

  predicate IsColon(c: char) { c == ':' }

  /** Ends of the authority (`netloc` / host) part. */
  predicate IsAuthorityEnd(c: char) { c == '/' || c == '?' || c == '#' }

  /** Ends of the path part. */
  predicate IsPathEnd(c: char) { c == '?' || c == '#' }

  /** Position of the `:` that ends the URL scheme: the first `:` of the
      text, provided everything before it is a letter followed by scheme
      characters. `None` when the text has no scheme. */
  function SchemeEnd(s: string): (r: Option<nat>)
    ensures r.Some? ==> 0 < r.value < |s| && s[r.value] == ':'
  {
    var i := FindFirst(s, IsColon);
    if 0 < i < |s| && IsAsciiLetter(s[0]) && forall j :: 0 <= j < i ==> IsSchemeChar(s[j]) then Some(i) else None
  }

  /** ASCII tab, line feed and carriage return: both URL parsers delete them
      from the whole text before reading it. */
  predicate IsTabOrNewline(c: char) { c == '\t' || c == '\n' || c == '\r' }

  predicate NoTabs(s: string) {
    forall i :: 0 <= i < |s| ==> !IsTabOrNewline(s[i])
  }

  /** The text with every tab, line feed and carriage return deleted. */
  function StripTabs(s: string): (r: string)
    ensures NoTabs(r) && forall i :: 0 <= i < |r| ==> r[i] in s
    ensures NoTabs(s) ==> r == s
    ensures s != [] && !IsTabOrNewline(s[0]) ==> r != [] && r[0] == s[0]
  {
    if s == [] then []
    else
      var r := (if IsTabOrNewline(s[0]) then [] else [s[0]]) + StripTabs(s[1..]);
      assert forall i :: 0 <= i < |r| ==> r[i] in s by {
        forall i | 0 <= i < |r| ensures r[i] in s {
          if i > 0 || IsTabOrNewline(s[0]) {
            var rest := StripTabs(s[1..]);
            var k := if IsTabOrNewline(s[0]) then i else i - 1;
            assert r[i] == rest[k] && rest[k] in s[1..];
          }
        }
      }
      r
  }

  /** The path of what follows the scheme: a leading `//authority` is
      skipped, and the path stops at the query (`?`) or fragment (`#`). */
  function PathOf(rest: string): string {
    var tail := if StartsWith(rest, "//") then rest[2 + FindFirst(rest[2..], IsAuthorityEnd)..] else rest;
    tail[..FindFirst(tail, IsPathEnd)]
  }

  /** Position of the last `/` of the text, or 0 when it has none. */
  function LastSlash(s: string): (j: nat)
    ensures j <= |s|
    ensures '/' in s ==> j < |s| && s[j] == '/' && '/' !in s[j + 1..]
    ensures '/' !in s ==> j == 0
  {
    if s == [] then 0
    else if s[|s| - 1] == '/' then |s| - 1
    else
      var front := s[..|s| - 1];
      var j := LastSlash(front);
      assert s == front + [s[|s| - 1]];
      assert '/' in s ==> '/' in front;
      assert '/' in front ==> s[j + 1..] == front[j + 1..] + [s[|s| - 1]];
      j
  }

  predicate IsSemicolon(c: char) { c == ';' }

  /** `_splitparams`, which `urlparse` applies to the path: the first `;`
      after the last `/` (anywhere, when there is no `/`) cuts the
      parameters off. */
  function SplitParams(p: string): (r: string)
    ensures |r| <= |p| && r == p[..|r|]
    ensures r != p ==> p[|r|] == ';' && '/' !in p[|r| + 1..]
    ensures ';' !in p ==> r == p
  {
    var j := LastSlash(p);
    var k := j + FindFirst(p[j..], IsSemicolon);
    assert k < |p| ==> p[k] == p[j..][k - j];
    assert '/' in p && k < |p| ==> p[k + 1..] == p[j + 1..][k - j..];
    p[..k]
  }

  /** The schemes of `uses_params`, for which `urlparse` splits parameters
      off the path; `""` stands for a text without a scheme. */
  predicate UsesParams(scheme: string) {
    scheme in {"", "ftp", "hdl", "prospero", "http", "imap", "https", "shttp",
               "rtsp", "rtsps", "rtspu", "sip", "sips", "mms", "sftp", "tel"}
  }

  /** `urlparse(line).path`: tabs and newlines are deleted, the scheme (if
      any) is read off and lower-cased, the path is taken, and parameters
      are cut off for the schemes that have them. A text without a scheme
      is all path. */
  function PyUrlPath(s: string): string {
    PyPath(StripTabs(s))
  }

  /** `urlparse`'s path of a text with nothing left to delete. */
  function PyPath(u: string): string {
    match SchemeEnd(u)
    case Some(i) =>
      var p := PathOf(u[i + 1..]);
      if UsesParams(Lower(u[..i])) then SplitParams(p) else p
    case None => SplitParams(PathOf(u))
  }


  /** The special schemes of the URL Standard that a text starting with
      `http` can carry; the scheme is compared in lower case. */
  predicate IsHttpScheme(scheme: string) {
    var l := Lower(scheme);
    l == "http" || l == "https"
  }

  predicate IsSlashLike(c: char) { c == '/' || c == '\\' }

  predicate IsNotSlashLike(c: char) { !IsSlashLike(c) }

  /** Ends of the host of a special URL, where `\` counts as `/`. */
  predicate IsSpecialHostEnd(c: char) { IsSlashLike(c) || IsPathEnd(c) }

  /** The path of a special URL reads every `\` as `/`. */
  function Backslashes(s: string): (r: string)
    ensures |r| == |s| && '\\' !in r
    ensures '\\' !in s ==> r == s
  {
    seq(|s|, i requires 0 <= i < |s| => if s[i] == '\\' then '/' else s[i])
  }

  /** What follows the last `c` of `s`: all of `s` when it holds no `c`. */
  function AfterLast(s: string, c: char): (r: string)
    ensures |r| <= |s| && r == s[|s| - |r|..] && c !in r
    ensures |r| < |s| ==> s[|s| - |r| - 1] == c
    ensures c !in s ==> r == s
    decreases |s|
  {
    if s == [] || s[|s| - 1] == c then []
    else
      var r := AfterLast(s[..|s| - 1], c) + [s[|s| - 1]];
      assert s[..|s| - 1] + [s[|s| - 1]] == s;
      r
  }

  predicate IsDigit(c: char) { '0' <= c <= '9' }

  /** The number a string of decimal digits writes. */
  function DecimalValue(p: string): nat
    requires forall i :: 0 <= i < |p| ==> IsDigit(p[i])
  {
    if p == [] then 0
    else
      assert IsDigit(p[|p| - 1]);
      10 * DecimalValue(p[..|p| - 1]) + (p[|p| - 1] as int - '0' as int)
  }

  /** The port of a URL: decimal digits (possibly none) writing a number no
      greater than 65535. */
  predicate IsPort(p: string) {
    (forall i :: 0 <= i < |p| ==> IsDigit(p[i])) && DecimalValue(p) <= 65535
  }

  /** The authority of an http or https URL as the URL Standard's parser
      accepts it: the userinfo ends at the last `@`, the host that follows
      runs to the first `:` and must not be empty, and what follows that `:`
      must be a port. */
  predicate ValidAuthority(auth: string) {
    var hp := AfterLast(auth, '@');
    var k := FindFirst(hp, IsColon);
    k > 0 && (k == |hp| || IsPort(hp[k + 1..]))
  }

  /** The pathname of an http or https URL, from what follows its `:`. Any
      run of `/` and `\` is skipped and an authority is read up to the next
      `/`, `\`, `?` or `#`; the path then runs to `?` or `#`, and an empty
      path reads `/`. `None` (the parser fails) when the authority is not
      valid: an empty host, or a port that is not digits or is too large. */
  function SpecialPath(rest: string): (r: Option<string>)
    ensures r.Some? ==> r.value != [] && r.value[0] == '/' && '\\' !in r.value
  {
    var a := rest[FindFirst(rest, IsNotSlashLike)..];
    var h := FindFirst(a, IsSpecialHostEnd);
    if !ValidAuthority(a[..h]) then None else Some(SpecialTail(a[h..]))
  }

  /** The pathname `new URL` reads from what follows the authority of an
      http or https URL: up to `?` or `#`, with `\` read as `/`, and `/`
      when that is empty. */
  function SpecialTail(x: string): (r: string)
    requires x == [] || IsSpecialHostEnd(x[0])
    ensures r != [] && r[0] == '/' && '\\' !in r
  {
    var k := FindFirst(x, IsPathEnd);
    var p := Backslashes(x[..k]);
    if p == [] then "/"
    else
      assert p[0] == if x[0] == '\\' then '/' else x[0];
      p
  }

  /** `new URL` reads `<slashes><authority><x>` as that authority followed
      by the path of `x`, and fails when the authority is not valid. */
  lemma {:induction false} SpecialPathSplit(lead: string, host: string, x: string)
    requires forall i :: 0 <= i < |lead| ==> IsSlashLike(lead[i])
    requires host != [] && forall i :: 0 <= i < |host| ==> !IsSpecialHostEnd(host[i])
    requires x == [] || IsSpecialHostEnd(x[0])
    ensures SpecialPath(lead + host + x) == if ValidAuthority(host) then Some(SpecialTail(x)) else None
  {
    var rest := lead + host + x;
    AppendAssoc(lead, host, x);
    assert rest[|lead|] == host[0];
    assert forall j :: 0 <= j < |lead| ==> rest[j] == lead[j];
    FindFirstIs(rest, IsNotSlashLike, |lead|);
    assert (lead + (host + x))[|lead|..] == host + x;
    FindFirstIs(host + x, IsSpecialHostEnd, |host|);
    assert (host + x)[|host|..] == x;
    assert (host + x)[..|host|] == host;
  }

  /** `new URL(line).pathname`, or `None` where `new URL` throws: the text
      (tabs and newlines deleted) has no scheme, or its authority is not
      valid. Other schemes than http and https read an authority only after
      `//`, and it may be empty. */
  function JsUrlPath(s: string): Option<string> {
    JsPath(StripTabs(s))
  }

  /** `new URL`'s pathname of a text with nothing left to delete. */
  function JsPath(u: string): Option<string> {
    match SchemeEnd(u)
    case Some(i) => if IsHttpScheme(u[..i]) then SpecialPath(u[i + 1..]) else NonSpecialPath(u[i + 1..])
    case None => None
  }

  /** The authority after a leading `//`: up to the next `/`, `?` or `#`. */
  function AuthorityOf(a: string): (r: string)
    ensures |r| <= |a| && r == a[..|r|] && forall i :: 0 <= i < |r| ==> !IsAuthorityEnd(r[i])
    ensures |r| < |a| ==> IsAuthorityEnd(a[|r|])
  {
    a[..FindFirst(a, IsAuthorityEnd)]
  }

  /** The authority of a URL of a scheme other than http and https may be
      empty; one that is not must be valid. */
  predicate NonSpecialAuthority(auth: string) {
    auth == [] || ValidAuthority(auth)
  }

  /** The pathname of a URL of a scheme other than http and https, from
      what follows its `:`. After `//` an authority is read and checked;
      the path is the one `urlparse` also reads, before `?` or `#`. `None`
      (the parser fails) when the authority is not valid. */
  function NonSpecialPath(rest: string): (r: Option<string>)
    ensures r.Some? ==> r.value == PathOf(rest)
    ensures r.None? <==> StartsWith(rest, "//") && !NonSpecialAuthority(AuthorityOf(rest[2..]))
  {
    if StartsWith(rest, "//") && !NonSpecialAuthority(AuthorityOf(rest[2..])) then None
    else Some(PathOf(rest))
  }

  /** `//<authority><x>` for a scheme other than http and https: the
      parser fails exactly when the authority is neither empty nor valid,
      and otherwise the path runs from the end of the authority to `?` or
      `#`. */
  lemma {:induction false} NonSpecialPathSplit(host: string, x: string)
    requires forall i :: 0 <= i < |host| ==> !IsAuthorityEnd(host[i])
    requires x == [] || IsAuthorityEnd(x[0])
    ensures NonSpecialPath(['/', '/'] + host + x) ==
      if host == [] || ValidAuthority(host) then Some(x[..FindFirst(x, IsPathEnd)]) else None
  {
    var hier := ['/', '/'] + host + x;
    assert hier[..2] == ['/', '/'];
    assert hier[2..] == host + x;
    FindFirstIs(host + x, IsAuthorityEnd, |host|);
    assert (host + x)[..|host|] == host;
    SkipAuthority(host, x);
  }


  /** The non-empty `/`-separated segments of a path. */
  function Segments(path: string): (r: seq<string>)
    ensures forall k :: 0 <= k < |r| ==> r[k] != "" && '/' !in r[k]
  {
    var pieces := SplitOn(path, '/');
    var r := DropEmpty(pieces);
    assert forall k :: 0 <= k < |r| ==> r[k] != "" && '/' !in r[k] by {
      forall k | 0 <= k < |r| ensures r[k] != "" && '/' !in r[k] {
        assert r[k] in pieces;
        var j :| 0 <= j < |pieces| && pieces[j] == r[k];
      }
    }
    r
  }

  /** The slug a `/cw/<slug>/...` path names, or `""` for any other path. */
  function CwSlug(path: string): (r: string)
    ensures r != "" ==> '/' !in r && r in Segments(path)
  {
    var parts := Segments(path);
    if |parts| >= 2 && parts[0] == "cw" then parts[1] else ""
  }

  /** `slug_from` (Python). */
  function SlugFrom(line: string): (r: string)
    ensures !StartsWith(Trim(Python, line), "http") ==> r == Trim(Python, line)
    ensures StartsWith(Trim(Python, line), "http") ==> '/' !in r
  {
    var t := Trim(Python, line);
    if t == "" then ""
    else if StartsWith(t, "http") then CwSlug(PyUrlPath(t))
    else t
  }

  /** `normalizeSlug` (TypeScript): a line `new URL` rejects gives `''`. */
  function NormalizeSlug(line: string): (r: string)
    ensures !StartsWith(Trim(JavaScript, line), "http") ==> r == Trim(JavaScript, line)
    ensures StartsWith(Trim(JavaScript, line), "http") ==> '/' !in r
  {
    var t := Trim(JavaScript, line);
    if t == "" then ""
    else if StartsWith(t, "http") then
      match JsUrlPath(t)
      case None => ""
      case Some(p) => CwSlug(p)
    else t
  }

  /** The message of the `TypeError` that `new URL` throws. */
  const InvalidUrl := "Invalid URL"

  /** `slugFrom` (the two Node.js copies): the same rules, except that a line
      `new URL` rejects makes it throw instead of returning `""`. */
  function SlugFromJs(line: string): (r: Attempt<string>)
    ensures r.Threw? ==> r.message == InvalidUrl && StartsWith(Trim(JavaScript, line), "http")
  {
    var t := Trim(JavaScript, line);
    if t == "" then Got("")
    else if StartsWith(t, "http") then
      match JsUrlPath(t)
      case None => Threw(InvalidUrl)
      case Some(p) => Got(CwSlug(p))
    else Got(t)
  }

  /** `normalizeSlug` is `slugFrom` with the throw caught and turned into `''`. */
  lemma NormalizeSlugCatches(line: string)
    ensures SlugFromJs(line).Got? ==> NormalizeSlug(line) == SlugFromJs(line).value
    ensures SlugFromJs(line).Threw? ==> NormalizeSlug(line) == ""
  {
    var t := Trim(JavaScript, line);
    if t != "" && StartsWith(t, "http") {
      assert SlugFromJs(line).Threw? <==> JsUrlPath(t).None?;
    }
  }

  /** A path that starts with something other than `/` or `c` cannot be a
      `/cw/` path. */
  lemma {:induction false} NotCwWhenNoLeadingSlash(path: string)
    requires path != [] && path[0] != '/' && path[0] != 'c'
    ensures CwSlug(path) == ""
  {
    var pieces := SplitOn(path, '/');
    var tail := SplitOn(path[1..], '/');
    assert pieces == [[path[0]] + tail[0]] + tail[1..];
    assert pieces[0] != "" && pieces[0][0] == path[0];
    assert DropEmpty(pieces)[0] == pieces[0];
  }

  /** The empty path and the root path name no slug. */
  lemma RootNamesNoSlug()
    ensures CwSlug("") == "" && CwSlug("/") == ""
  {
    assert SplitOn("", '/') == [""];
    assert "/"[1..] == "";
    assert SplitOn("/", '/') == ["", ""];
  }

  /** A text starting with `h` and without a scheme is read as a path whose
      first segment starts with `h`, so it names no slug, whether or not
      parameters are cut off. */
  lemma {:induction false} BareHttpPath(t: string)
    requires t != [] && t[0] == 'h' && SchemeEnd(t).None?
    ensures CwSlug(SplitParams(PathOf(t))) == ""
  {
    assert !StartsWith(t, "//") by {
      if |t| >= 2 { assert t[..2][0] == 'h'; }
    }
    var k := FindFirst(t, IsPathEnd);
    assert k > 0;
    assert PathOf(t) == t[..k];
    var p := SplitParams(t[..k]);
    if p == [] {
      RootNamesNoSlug();
    } else {
      assert p[0] == t[0];
      NotCwWhenNoLeadingSlash(p);
    }
  }

  lemma StartsWithHttp(t: string)
    requires StartsWith(t, "http")
    ensures t != [] && t[0] == 'h'
  {
    assert t[..4][0] == t[0];
  }

  /** A line that starts with `http` but has no scheme (a bare slug such as
      `httpcoin`) is dropped by Python and by `normalizeSlug`, and makes
      `slugFrom` throw. */
  lemma {:induction false} BareHttpLine(line: string)
    requires StartsWith(Trim(Python, line), "http") && SchemeEnd(StripTabs(Trim(Python, line))).None?
    requires StartsWith(Trim(JavaScript, line), "http") && SchemeEnd(StripTabs(Trim(JavaScript, line))).None?
    ensures SlugFrom(line) == "" && NormalizeSlug(line) == "" && SlugFromJs(line).Threw?
  {
    var t := Trim(Python, line);
    StartsWithHttp(t);
    BareHttpPath(StripTabs(t));
  }

  /** The authority of a special URL after its leading `//`: up to the
      next `/`, `\`, `?` or `#`. */
  function SpecialAuthority(a: string): string {
    a[..FindFirst(a, IsSpecialHostEnd)]
  }

  /** A text whose scheme, if it is http or https, is followed by `//` and
      a valid authority, and, if it is another, has no authority or one
      that is empty or valid: the case where the two URL parsers read the
      authority alike. */
  predicate PlainAuthority(u: string) {
    match SchemeEnd(u)
    case None => true
    case Some(i) =>
      if IsHttpScheme(u[..i]) then
        i + 3 <= |u| && u[i + 1] == '/' && u[i + 2] == '/' && ValidAuthority(SpecialAuthority(u[i + 3..]))
      else
        NonSpecialPath(u[i + 1..]).Some?
  }

  /** After `//` and a host, an http or https URL without `\` has the path
      `urlparse` finds, except that an empty path reads `/`. */
  lemma {:induction false} PlainSpecialPath(hier: string)
    requires '\\' !in hier
    requires |hier| >= 2 && hier[0] == '/' && hier[1] == '/' && ValidAuthority(SpecialAuthority(hier[2..]))
    ensures SpecialPath(hier) == Some(if PathOf(hier) == [] then "/" else PathOf(hier))
  {
    var host := SpecialAuthority(hier[2..]);
    var x := hier[2..][|host|..];
    HierSplit(hier);
    SkipSlashes(host, x);
    SkipAuthority(host, x);
    var p := x[..FindFirst(x, IsPathEnd)];
    NotInPrefix(x, FindFirst(x, IsPathEnd), '\\');
    assert Backslashes(p) == p;
  }

  /** `//<authority><rest>`, split at the end of the authority. */
  lemma {:induction false} HierSplit(hier: string)
    requires '\\' !in hier
    requires |hier| >= 2 && hier[0] == '/' && hier[1] == '/'
    ensures var host := SpecialAuthority(hier[2..]);
      var x := hier[2..][|host|..];
      && hier == ['/', '/'] + host + x
      && (forall i :: 0 <= i < |host| ==> !IsSpecialHostEnd(host[i]))
      && (x == [] || IsSpecialHostEnd(x[0]))
      && '\\' !in x
  {
    var a := hier[2..];
    var h := FindFirst(a, IsSpecialHostEnd);
    var host := a[..h];
    var x := a[h..];
    assert hier == ['/', '/'] + host + x;
    NotInSlice(hier, 2, '\\');
    NotInSlice(a, h, '\\');
  }

  lemma NotInSlice(s: string, i: nat, c: char)
    requires i <= |s| && c !in s
    ensures c !in s[i..]
  {
  }

  lemma NotInPrefix(s: string, n: nat, c: char)
    requires n <= |s| && c !in s
    ensures c !in s[..n]
  {
  }


  /** Where the two runtimes agree on which characters of the line are
      whitespace, the line holds no `\` and no `;`, and an http or https
      scheme is followed by `//` and a host, `slug_from` and `normalizeSlug`
      return the same slug. */
  lemma {:induction false} SlugFromAgrees(line: string)
    requires forall i :: 0 <= i < |line| ==> (IsSpace(Python, line[i]) <==> IsSpace(JavaScript, line[i]))
    requires '\\' !in line && ';' !in line
    requires PlainAuthority(StripTabs(Trim(Python, line)))
    ensures SlugFrom(line) == NormalizeSlug(line)
  {
    TrimAgrees(line);
    var t := Trim(Python, line);
    if t != "" && StartsWith(t, "http") {
      TrimWithin(Python, line);
      var u := StripTabs(t);
      assert '\\' !in u && ';' !in u;
      if SchemeEnd(u).None? {
        BareHttpLine(line);
      } else {
        UrlPathsIgnoreTabs(t);
        SchemePathsAgree(u, SchemeEnd(u).value);
      }
    }
  }

  /** Both parsers read a text as they read it with its tabs and newlines
      deleted. */
  lemma UrlPathsIgnoreTabs(s: string)
    ensures PyUrlPath(StripTabs(s)) == PyUrlPath(s) && JsUrlPath(StripTabs(s)) == JsUrlPath(s)
  {
    assert StripTabs(StripTabs(s)) == StripTabs(s);
  }

  /** The path keeps only characters of what it is read from. */
  lemma PathOfWithin(rest: string)
    ensures forall j :: 0 <= j < |PathOf(rest)| ==> PathOf(rest)[j] in rest
  {
    var tail := if StartsWith(rest, "//") then rest[2 + FindFirst(rest[2..], IsAuthorityEnd)..] else rest;
    assert forall j :: 0 <= j < |tail| ==> tail[j] in rest;
  }

  /** A text with a scheme, no tab, no `\`, no `;`, and `//` and a host
      after an http or https scheme gets paths with the same slug from both
      parsers. */
  lemma {:induction false} SchemePathsAgree(u: string, i: nat)
    requires NoTabs(u) && SchemeEnd(u) == Some(i) && '\\' !in u && ';' !in u && PlainAuthority(u)
    ensures JsUrlPath(u).Some? && CwSlug(PyUrlPath(u)) == CwSlug(JsUrlPath(u).value)
  {
    var hier := u[i + 1..];
    var p := PathOf(hier);
    PathOfWithin(hier);
    assert ';' !in p;
    if IsHttpScheme(u[..i]) {
      assert '\\' !in hier;
      PlainSpecialPath(hier);
    }
    BothPaths(u, i, p);
    RootNamesNoSlug();
  }

  /** A text with a scheme and nothing to delete: `urlparse` reads the path
      after the `:`, which here has no parameters to cut off. */
  lemma PyUrlPathAfterScheme(s: string, i: nat)
    requires NoTabs(s) && SchemeEnd(s) == Some(i) && ';' !in PathOf(s[i + 1..])
    ensures PyUrlPath(s) == PathOf(s[i + 1..])
  {
  }

  /** A text with a scheme and nothing to delete: `new URL` reads what
      follows the `:` by the rules of its scheme. */
  lemma JsUrlPathAfterScheme(s: string, i: nat)
    requires NoTabs(s) && SchemeEnd(s) == Some(i)
    ensures JsUrlPath(s) == if IsHttpScheme(s[..i]) then SpecialPath(s[i + 1..]) else NonSpecialPath(s[i + 1..])
  {
  }

  /** A scheme of scheme characters starting with a letter ends at the `:`
      that follows it. */
  lemma {:induction false} SchemeEndAfter(scheme: string, hier: string)
    requires scheme != [] && IsAsciiLetter(scheme[0])
    requires forall i :: 0 <= i < |scheme| ==> IsSchemeChar(scheme[i])
    ensures SchemeEnd(scheme + [':'] + hier) == Some(|scheme|)
    ensures (scheme + [':'] + hier)[..|scheme|] == scheme
    ensures (scheme + [':'] + hier)[|scheme| + 1..] == hier
  {
    var line := scheme + [':'] + hier;
    assert line[|scheme|] == ':';
    assert forall j :: 0 <= j < |scheme| ==> line[j] == scheme[j] && !IsColon(line[j]);
    FindFirstIs(line, IsColon, |scheme|);
  }

  /** Skipping `//host` leaves what follows the host. */
  lemma {:induction false} SkipAuthority(host: string, x: string)
    requires forall i :: 0 <= i < |host| ==> !IsAuthorityEnd(host[i])
    requires x == [] || IsAuthorityEnd(x[0])
    ensures PathOf(['/', '/'] + host + x) == x[..FindFirst(x, IsPathEnd)]
  {
    var hier := ['/', '/'] + host + x;
    assert StartsWith(hier, "//") by {
      assert hier[..2] == ['/', '/'];
    }
    assert hier[2..] == host + x;
    FindFirstIs(host + x, IsAuthorityEnd, |host|);
    assert (host + x)[|host|..] == x;
  }

  /** After `//` and a valid authority, an http or https URL has the path
      that follows the authority, with `\` read as `/`. */
  lemma {:induction false} SkipSlashes(host: string, x: string)
    requires ValidAuthority(host) && forall i :: 0 <= i < |host| ==> !IsSpecialHostEnd(host[i])
    requires x == [] || IsSpecialHostEnd(x[0])
    ensures var p := Backslashes(x[..FindFirst(x, IsPathEnd)]);
      SpecialPath(['/', '/'] + host + x) == Some(if p == [] then "/" else p)
  {
    SpecialPathSplit(['/', '/'], host, x);
  }

  /** The path of `/cw/<id><rest>` stops inside `rest`. */
  lemma {:induction false} CwPathEnd(id: string, rest: string)
    requires forall i :: 0 <= i < |id| ==> !IsPathEnd(id[i])
    ensures var p := ['/', 'c', 'w', '/'] + id + rest;
      p[..FindFirst(p, IsPathEnd)] == ['/', 'c', 'w', '/'] + id + rest[..FindFirst(rest, IsPathEnd)]
  {
    var p := ['/', 'c', 'w', '/'] + id + rest;
    var k := FindFirst(rest, IsPathEnd);
    forall j | 0 <= j < 4 + |id| + k
      ensures !IsPathEnd(p[j])
    {
      if j >= 4 + |id| {
        assert p[j] == rest[j - 4 - |id|];
      } else if j >= 4 {
        assert p[j] == id[j - 4];
      }
    }
    if 4 + |id| + k < |p| {
      assert p[4 + |id| + k] == rest[k];
    }
    FindFirstIs(p, IsPathEnd, 4 + |id| + k);
  }
  /** Splitting `cw/<more>` at `/` gives the segment `cw` first. */
  lemma CwPiece(more: string)
    ensures SplitOn(['c', 'w', '/'] + more, '/') == ["cw"] + SplitOn(more, '/')
  {
    var slashMore := ['/'] + more;
    assert slashMore[1..] == more;
    assert SplitOn(slashMore, '/') == [""] + SplitOn(more, '/');
    assert '/' !in ['c', 'w'];
    SplitOnPrefix(['c', 'w'], slashMore, '/');
    assert ['c', 'w', '/'] + more == ['c', 'w'] + slashMore;
    assert ['c', 'w'] + "" == "cw";
  }

  /** Splitting a path that begins `/cw/<id>` followed by nothing or by a
      further `/...` yields the segments `cw` and `id` first. */
  lemma CwPathSegments(id: string, tail: string)
    requires id != [] && '/' !in id
    requires tail == [] || tail[0] == '/'
    ensures CwSlug(['/', 'c', 'w', '/'] + id + tail) == id
  {
    var more := SplitOn(tail, '/')[1..];
    CwPathSplit(id, tail);
    DropEmptyCw(id, more);
  }

  /** An id free of `/`, then nothing or a `/...` tail, splits into the id
      and the tail's later pieces. */
  lemma IdTailSplit(id: string, tail: string)
    requires '/' !in id
    requires tail == [] || tail[0] == '/'
    ensures SplitOn(id + tail, '/') == [id] + SplitOn(tail, '/')[1..]
  {
    var st := SplitOn(tail, '/');
    if tail != [] {
      assert st == [""] + SplitOn(tail[1..], '/');
    }
    SplitOnPrefix(id, tail, '/');
    assert id + st[0] == id;
  }

  /** `/cw/<id><tail>` splits into an empty piece, `cw`, the id, then the
      tail's later pieces. */
  lemma CwPathSplit(id: string, tail: string)
    requires '/' !in id
    requires tail == [] || tail[0] == '/'
    ensures SplitOn(['/', 'c', 'w', '/'] + id + tail, '/') == ["", "cw", id] + SplitOn(tail, '/')[1..]
  {
    var path := ['/', 'c', 'w', '/'] + id + tail;
    var more := SplitOn(tail, '/')[1..];
    SlashFirst(path, ['c', 'w', '/'] + (id + tail));
    IdTailSplit(id, tail);
    CwPiece(id + tail);
    Nest3("", "cw", id, more);
  }

  /** A string that starts with `/` splits into an empty piece, then the
      pieces of the rest. */
  lemma SlashFirst(s: string, rest: string)
    requires s == ['/'] + rest
    ensures SplitOn(s, '/') == [""] + SplitOn(rest, '/')
  {
    assert s[1..] == rest;
  }

  lemma Nest3(a: string, b: string, c: string, more: seq<string>)
    ensures [a] + ([b] + ([c] + more)) == [a, b, c] + more
  {
  }

  /** Dropping the empty pieces of `"", "cw", <id>, ...` keeps `cw` and the
      id in front. */
  lemma DropEmptyCw(id: string, more: seq<string>)
    requires id != ""
    ensures DropEmpty(["", "cw", id] + more) == ["cw", id] + DropEmpty(more)
  {
    var l := ["", "cw", id] + more;
    assert l[1..] == ["cw"] + ([id] + more);
    assert ([id] + more)[1..] == more;
    assert DropEmpty([id] + more) == [id] + DropEmpty(more);
    assert (["cw"] + ([id] + more))[1..] == [id] + more;
    assert DropEmpty(l[1..]) == ["cw"] + ([id] + DropEmpty(more));
    assert DropEmpty(l) == DropEmpty(l[1..]);
  }

  lemma TailStartsWithSlash(rest: string, n: nat)
    requires rest == [] || IsAuthorityEnd(rest[0])
    requires n <= |rest| && forall i :: 0 <= i < n ==> !IsPathEnd(rest[i])
    ensures rest[..n] == [] || rest[..n][0] == '/'
  {
    if n > 0 {
      assert rest[..n][0] == rest[0];
      assert !IsPathEnd(rest[0]);
    }
  }

  /** Host characters both parsers read alike: no tab or newline, and none
      of `/`, `\`, `?` and `#`, which end a host. */
  predicate IsPlainHostChar(c: char) {
    !IsTabOrNewline(c) && !IsSpecialHostEnd(c)
  }

  /** Path characters both parsers read alike: no tab or newline, no `\`
      (a separator for `new URL` only), no `;` (parameters for `urlparse`
      only), and neither `?` nor `#`, which end the path. */
  predicate IsPlainPathChar(c: char) {
    !IsTabOrNewline(c) && c != '\\' && c != ';' && !IsPathEnd(c)
  }

  /** A line neither runtime trims: its last character is not whitespace. */
  predicate Untrimmed(line: string) {
    line != [] && !IsSpace(Python, line[|line| - 1]) && !IsSpace(JavaScript, line[|line| - 1])
  }

  lemma NoTabsAppend(a: string, b: string)
    requires NoTabs(a) && NoTabs(b)
    ensures NoTabs(a + b)
  {
  }

  lemma UrlLineParts(scheme: string, host: string, path: string, rest: string)
    ensures scheme + "://" + host + path + rest == scheme + [':'] + (['/', '/'] + host + (path + rest))
  {
    AppendAssoc(scheme + "://" + host, path, rest);
    assert scheme + "://" + host == scheme + [':'] + (['/', '/'] + host);
  }

  /** The URL line `<scheme>://<host><path><rest>` holds no tab. */
  lemma {:induction false} UrlLineNoTabs(scheme: string, host: string, path: string, rest: string)
    requires forall i :: 0 <= i < |scheme| ==> IsSchemeChar(scheme[i])
    requires forall i :: 0 <= i < |host| ==> IsPlainHostChar(host[i])
    requires forall i :: 0 <= i < |path| ==> IsPlainPathChar(path[i])
    requires NoTabs(rest)
    ensures NoTabs(scheme + "://" + host + path + rest)
  {
    assert NoTabs(scheme) && NoTabs("://") && NoTabs(host) && NoTabs(path);
    NoTabsAppend(scheme, "://");
    NoTabsAppend(scheme + "://", host);
    NoTabsAppend(scheme + "://" + host, path);
    NoTabsAppend(scheme + "://" + host + path, rest);
  }

  /** A line that starts with `http` and ends in a non-space is left as it
      is by both trims. */
  lemma HttpLineUntrimmed(line: string)
    requires StartsWith(line, "http") && Untrimmed(line)
    ensures Trim(Python, line) == line && Trim(JavaScript, line) == line
  {
    StartsWithHttp(line);
    TrimUnchanged(Python, line);
    TrimUnchanged(JavaScript, line);
  }

  lemma UrlLineStartsWith(scheme: string, host: string, path: string, rest: string)
    requires StartsWith(scheme, "http")
    ensures StartsWith(scheme + "://" + host + path + rest, "http")
  {
    var line := scheme + "://" + host + path + rest;
    assert line[..4] == scheme[..4];
  }

  /** A path without `?` or `#`, followed by nothing or by a query or
      fragment, is all of the path. */
  lemma {:induction false} PathThenRest(path: string, rest: string)
    requires forall i :: 0 <= i < |path| ==> IsPlainPathChar(path[i])
    requires rest == [] || IsPathEnd(rest[0])
    ensures FindFirst(path + rest, IsPathEnd) == |path| && (path + rest)[..|path|] == path
  {
    var x := path + rest;
    assert forall j :: 0 <= j < |path| ==> x[j] == path[j];
    if rest != [] {
      assert x[|path|] == rest[0];
    }
    FindFirstIs(x, IsPathEnd, |path|);
  }

  /** Once the path after the scheme is known, both parsers' paths are. */
  lemma BothPaths(s: string, i: nat, path: string)
    requires NoTabs(s) && SchemeEnd(s) == Some(i)
    requires PathOf(s[i + 1..]) == path && ';' !in path
    requires IsHttpScheme(s[..i]) ==> SpecialPath(s[i + 1..]) == Some(if path == [] then "/" else path)
    requires !IsHttpScheme(s[..i]) ==> NonSpecialPath(s[i + 1..]).Some?
    ensures PyUrlPath(s) == path && (JsUrlPath(s) == Some(path) || (path == [] && JsUrlPath(s) == Some("/")))
  {
    PyUrlPathAfterScheme(s, i);
    JsUrlPathAfterScheme(s, i);
  }

  /** After the `:`, both parsers find `<path>` in `//<host><path><rest>`. */
  lemma {:induction false} HierPaths(host: string, path: string, rest: string)
    requires ValidAuthority(host) && forall i :: 0 <= i < |host| ==> IsPlainHostChar(host[i])
    requires (path == [] || path[0] == '/') && forall i :: 0 <= i < |path| ==> IsPlainPathChar(path[i])
    requires rest == [] || IsPathEnd(rest[0])
    ensures var hier := ['/', '/'] + host + (path + rest);
      PathOf(hier) == path && SpecialPath(hier) == Some(if path == [] then "/" else path) && NonSpecialPath(hier).Some?
  {
    var x := path + rest;
    PathThenRest(path, rest);
    PathStartsHier(path, rest);
    SkipAuthority(host, x);
    SkipSlashes(host, x);
    NonSpecialPathSplit(host, x);
    PlainPathKept(path);
  }

  /** A path that is empty or starts with `/`, then nothing or a query or
      fragment, starts with a character that ends a host. */
  lemma PathStartsHier(path: string, rest: string)
    requires path == [] || path[0] == '/'
    requires rest == [] || IsPathEnd(rest[0])
    ensures var x := path + rest; (x == [] || IsAuthorityEnd(x[0])) && (x == [] || IsSpecialHostEnd(x[0]))
  {
    if path != [] {
      assert (path + rest)[0] == path[0];
    } else {
      assert path + rest == rest;
    }
  }

  /** `new URL` keeps a path of plain characters as it is. */
  lemma PlainPathKept(path: string)
    requires forall i :: 0 <= i < |path| ==> IsPlainPathChar(path[i])
    ensures Backslashes(path) == path
  {
    assert '\\' !in path;
  }

  /** Both parsers find `<path>` in `<scheme>://<host><path><rest>`, except
      that `new URL` reads an empty path of an http or https URL as `/`. */
  lemma {:induction false} UrlLinePaths(scheme: string, host: string, path: string, rest: string)
    requires StartsWith(scheme, "http") && forall i :: 0 <= i < |scheme| ==> IsSchemeChar(scheme[i])
    requires ValidAuthority(host) && forall i :: 0 <= i < |host| ==> IsPlainHostChar(host[i])
    requires (path == [] || path[0] == '/') && forall i :: 0 <= i < |path| ==> IsPlainPathChar(path[i])
    requires (rest == [] || IsPathEnd(rest[0])) && NoTabs(rest)
    ensures var line := scheme + "://" + host + path + rest;
      PyUrlPath(line) == path && (JsUrlPath(line) == Some(path) || (path == [] && JsUrlPath(line) == Some("/")))
  {
    HierPaths(host, path, rest);
    LinePaths(scheme, host, path, rest);
  }

  /** Both parsers find in the URL line the path they find after its `:`. */
  lemma {:induction false} LinePaths(scheme: string, host: string, path: string, rest: string)
    requires StartsWith(scheme, "http") && forall i :: 0 <= i < |scheme| ==> IsSchemeChar(scheme[i])
    requires forall i :: 0 <= i < |host| ==> IsPlainHostChar(host[i])
    requires forall i :: 0 <= i < |path| ==> IsPlainPathChar(path[i])
    requires NoTabs(rest)
    requires var hier := ['/', '/'] + host + (path + rest);
      PathOf(hier) == path && SpecialPath(hier) == Some(if path == [] then "/" else path) && NonSpecialPath(hier).Some?
    ensures var line := scheme + "://" + host + path + rest;
      PyUrlPath(line) == path && (JsUrlPath(line) == Some(path) || (path == [] && JsUrlPath(line) == Some("/")))
  {
    var line := scheme + "://" + host + path + rest;
    var hier := ['/', '/'] + host + (path + rest);
    UrlLineParts(scheme, host, path, rest);
    UrlLineNoTabs(scheme, host, path, rest);
    StartsWithHttp(scheme);
    SchemeEndAfter(scheme, hier);
    assert ';' !in path;
    BothPaths(line, |scheme|, path);
  }

  /** Once both parsers' paths are known, the three copies return their slugs. */
  lemma UrlSlugs(line: string, py: string, js: string)
    requires StartsWith(line, "http") && Trim(Python, line) == line && Trim(JavaScript, line) == line
    requires CwSlug(PyUrlPath(line)) == py
    requires JsUrlPath(line).Some? && CwSlug(JsUrlPath(line).value) == js
    ensures SlugFrom(line) == py && NormalizeSlug(line) == js && SlugFromJs(line) == Got(js)
  {
  }

  /** A URL line `<scheme>://<host><path>`, optionally followed by a query
      or fragment, gives the slug its path names in all three copies: the
      second segment when the first is `cw`, `""` otherwise. */
  lemma {:induction false} UrlLineSlug(scheme: string, host: string, path: string, rest: string)
    requires StartsWith(scheme, "http") && forall i :: 0 <= i < |scheme| ==> IsSchemeChar(scheme[i])
    requires ValidAuthority(host) && forall i :: 0 <= i < |host| ==> IsPlainHostChar(host[i])
    requires (path == [] || path[0] == '/') && forall i :: 0 <= i < |path| ==> IsPlainPathChar(path[i])
    requires (rest == [] || IsPathEnd(rest[0])) && NoTabs(rest)
    requires Untrimmed(scheme + "://" + host + path + rest)
    ensures var line := scheme + "://" + host + path + rest;
      SlugFrom(line) == CwSlug(path) && NormalizeSlug(line) == CwSlug(path) && SlugFromJs(line) == Got(CwSlug(path))
  {
    var line := scheme + "://" + host + path + rest;
    UrlLineStartsWith(scheme, host, path, rest);
    HttpLineUntrimmed(line);
    UrlLinePaths(scheme, host, path, rest);
    RootNamesNoSlug();
    UrlSlugs(line, CwSlug(path), CwSlug(path));
  }

  /** A URL line whose path does not start `/cw/<slug>` (no segment, one
      segment, or a first segment other than `cw`) gives `""` in all three
      copies. */
  lemma {:induction false} SlugFromNonCwUrl(scheme: string, host: string, path: string, rest: string)
    requires StartsWith(scheme, "http") && forall i :: 0 <= i < |scheme| ==> IsSchemeChar(scheme[i])
    requires ValidAuthority(host) && forall i :: 0 <= i < |host| ==> IsPlainHostChar(host[i])
    requires (path == [] || path[0] == '/') && forall i :: 0 <= i < |path| ==> IsPlainPathChar(path[i])
    requires (rest == [] || IsPathEnd(rest[0])) && NoTabs(rest)
    requires Untrimmed(scheme + "://" + host + path + rest)
    requires |Segments(path)| < 2 || Segments(path)[0] != "cw"
    ensures SlugFrom(scheme + "://" + host + path + rest) == ""
    ensures NormalizeSlug(scheme + "://" + host + path + rest) == ""
    ensures SlugFromJs(scheme + "://" + host + path + rest) == Got("")
  {
    UrlLineSlug(scheme, host, path, rest);
  }

  /** `/cw/<id>` and the path part of what follows is a path both parsers
      read alike. */
  lemma {:induction false} CwPathPlain(id: string, tail: string)
    requires forall i :: 0 <= i < |id| ==> IsPlainPathChar(id[i])
    requires forall i :: 0 <= i < |tail| ==> IsPlainPathChar(tail[i])
    ensures var path := "/cw/" + id + tail;
      path[0] == '/' && forall i :: 0 <= i < |path| ==> IsPlainPathChar(path[i])
  {
    var path := "/cw/" + id + tail;
    forall i | 0 <= i < |path| ensures IsPlainPathChar(path[i]) {
      if i >= 4 + |id| {
        assert path[i] == tail[i - 4 - |id|];
      } else if i >= 4 {
        assert path[i] == id[i - 4];
      }
    }
  }

  /** What follows `/cw/<id>` splits into the rest of the path, which is
      empty or starts with `/`, and a query or fragment. */
  lemma {:induction false} RestParts(rest: string, tail: string, query: string)
    requires (rest == [] || IsAuthorityEnd(rest[0])) && NoTabs(rest)
    requires forall i :: 0 <= i < FindFirst(rest, IsPathEnd) ==> rest[i] != '\\' && rest[i] != ';'
    requires tail == rest[..FindFirst(rest, IsPathEnd)] && query == rest[FindFirst(rest, IsPathEnd)..]
    ensures rest == tail + query && (tail == [] || tail[0] == '/')
    ensures forall i :: 0 <= i < |tail| ==> IsPlainPathChar(tail[i])
    ensures (query == [] || IsPathEnd(query[0])) && NoTabs(query)
  {
    var k := FindFirst(rest, IsPathEnd);
    TailStartsWithSlash(rest, k);
    forall i | 0 <= i < |tail| ensures IsPlainPathChar(tail[i]) {
      assert tail[i] == rest[i];
    }
    forall i | 0 <= i < |query| ensures !IsTabOrNewline(query[i]) {
      assert query[i] == rest[k + i];
    }
  }

  lemma CwLineSplit(scheme: string, host: string, id: string, tail: string, query: string)
    ensures scheme + "://" + host + "/cw/" + id + (tail + query) == scheme + "://" + host + ("/cw/" + id + tail) + query
  {
  }

  /** A line `<scheme>://<host>/cw/<id>` optionally followed by `/...`,
      `?...` or `#...` normalises to `<id>` in every copy. */
  lemma {:induction false} SlugFromCwUrl(scheme: string, host: string, id: string, rest: string)
    requires StartsWith(scheme, "http") && forall i :: 0 <= i < |scheme| ==> IsSchemeChar(scheme[i])
    requires ValidAuthority(host) && forall i :: 0 <= i < |host| ==> IsPlainHostChar(host[i])
    requires id != [] && forall i :: 0 <= i < |id| ==> IsPlainPathChar(id[i]) && id[i] != '/'
    requires (rest == [] || IsAuthorityEnd(rest[0])) && NoTabs(rest)
    requires forall i :: 0 <= i < FindFirst(rest, IsPathEnd) ==> rest[i] != '\\' && rest[i] != ';'
    requires Untrimmed(scheme + "://" + host + "/cw/" + id + rest)
    ensures SlugFrom(scheme + "://" + host + "/cw/" + id + rest) == id
    ensures NormalizeSlug(scheme + "://" + host + "/cw/" + id + rest) == id
    ensures SlugFromJs(scheme + "://" + host + "/cw/" + id + rest) == Got(id)
  {
    var k := FindFirst(rest, IsPathEnd);
    var tail := rest[..k];
    var query := rest[k..];
    RestParts(rest, tail, query);
    CwLineSplit(scheme, host, id, tail, query);
    assert '/' !in id;
    CwPathSegments(id, tail);
    CwPathPlain(id, tail);
    UrlLineSlug(scheme, host, "/cw/" + id + tail, query);
  }

  /** `http:/cw/<id>`, with one slash: `urlparse` finds no authority and
      reads the path `/cw/<id>`, while `new URL` skips the slash, takes `cw`
      as the host and reads the path `/<id>`. Only Python finds the slug. */
  lemma {:induction false} SingleSlashCwUrl(id: string)
    requires id != [] && forall i :: 0 <= i < |id| ==> IsPlainPathChar(id[i]) && id[i] != '/'
    requires Untrimmed("http:/cw/" + id)
    ensures SlugFrom("http:/cw/" + id) == id
    ensures NormalizeSlug("http:/cw/" + id) == "" && SlugFromJs("http:/cw/" + id) == Got("")
  {
    var line := "http:/cw/" + id;
    SingleSlashLine(id);
    HttpLineUntrimmed(line);
    SingleSlashSlugs(id);
    UrlSlugs(line, id, "");
  }

  /** The two paths of `http:/cw/<id>` name `<id>` and nothing. */
  lemma {:induction false} SingleSlashSlugs(id: string)
    requires id != [] && forall i :: 0 <= i < |id| ==> IsPlainPathChar(id[i]) && id[i] != '/'
    ensures CwSlug(PyUrlPath("http:/cw/" + id)) == id
    ensures JsUrlPath("http:/cw/" + id).Some? && CwSlug(JsUrlPath("http:/cw/" + id).value) == ""
  {
    assert '/' !in id;
    SingleSlashPy(id);
    SingleSlashJs(id);
    CwPathSegments(id, "");
    assert "/cw/" + id + "" == "/cw/" + id;
    SlashIdNoSlug(id);
  }

  /** The line `http:/cw/<id>` is `http:` and the path `/cw/<id>`, with no tab. */
  lemma {:induction false} SingleSlashLine(id: string)
    requires forall i :: 0 <= i < |id| ==> IsPlainPathChar(id[i])
    ensures var hier := "/cw/" + id;
      "http:/cw/" + id == "http" + [':'] + hier && NoTabs("http:/cw/" + id)
      && (forall i :: 0 <= i < |hier| ==> IsPlainPathChar(hier[i]))
      && SchemeEnd("http:/cw/" + id) == Some(4) && ("http:/cw/" + id)[5..] == hier
      && StartsWith("http:/cw/" + id, "http")
  {
    var hier := "/cw/" + id;
    CwPathPlain(id, "");
    assert hier == "/cw/" + id + "";
    NoTabsAppend("http:", hier);
    SchemeEndAfter("http", hier);
  }

  /** `urlparse` reads the path `/cw/<id>` of `http:/cw/<id>`. */
  lemma {:induction false} SingleSlashPy(id: string)
    requires forall i :: 0 <= i < |id| ==> IsPlainPathChar(id[i])
    ensures PyUrlPath("http:/cw/" + id) == "/cw/" + id
  {
    var hier := "/cw/" + id;
    SingleSlashLine(id);
    assert !StartsWith(hier, "//") by {
      assert hier[..2][1] == 'c';
    }
    FindFirstIs(hier, IsPathEnd, |hier|);
    assert PathOf(hier) == hier;
    PyUrlPathAfterScheme("http:/cw/" + id, 4);
  }

  /** `new URL` reads the path `/<id>` of `http:/cw/<id>`. */
  lemma {:induction false} SingleSlashJs(id: string)
    requires forall i :: 0 <= i < |id| ==> IsPlainPathChar(id[i]) && id[i] != '/'
    ensures JsUrlPath("http:/cw/" + id) == Some("/" + id)
  {
    SingleSlashLine(id);
    LowerOfLowerCase("http");
    JsUrlPathAfterScheme("http:/cw/" + id, 4);
    SkipOneSlash(id);
  }

  /** After `http:`, `/cw/<id>` is one slash, the host `cw` and the path `/<id>`. */
  lemma {:induction false} SkipOneSlash(id: string)
    requires forall i :: 0 <= i < |id| ==> IsPlainPathChar(id[i]) && id[i] != '/'
    ensures SpecialPath("/cw/" + id) == Some("/" + id)
  {
    var p := "/" + id;
    assert "/cw/" + id == ['/'] + "cw" + p;
    SpecialPathSplit(['/'], "cw", p);
    CwAuthority();
    SlashIdTail(id);
  }

  /** `cw` is a valid authority: a host with no userinfo and no port. */
  lemma CwAuthority()
    ensures ValidAuthority("cw")
  {
    HostPortAuthority("cw", "");
  }

  /** `new URL` reads `/<id>` after the host as the path `/<id>`. */
  lemma {:induction false} SlashIdTail(id: string)
    requires forall i :: 0 <= i < |id| ==> IsPlainPathChar(id[i])
    ensures SpecialTail("/" + id) == "/" + id
  {
    var p := "/" + id;
    assert forall j :: 0 <= j < |p| ==> IsPlainPathChar(p[j]);
    FindFirstIs(p, IsPathEnd, |p|);
    assert p[..|p|] == p;
    assert '\\' !in p;
  }

  /** A path of one segment names no slug. */
  lemma SlashIdNoSlug(id: string)
    requires id != [] && '/' !in id
    ensures CwSlug("/" + id) == ""
  {
    SlashFirst("/" + id, id);
    SplitOnPrefix(id, "", '/');
    assert id + "" == id;
    assert SplitOn("/" + id, '/') == ["", id];
    assert DropEmpty(["", id]) == [id];
  }

  /** A host without `:` or `@` makes a valid authority on its own, and
      followed by `:` and a port text it makes a valid authority exactly
      when that text is a port. */
  lemma {:induction false} HostPortAuthority(host: string, port: string)
    requires host != [] && ':' !in host && '@' !in host && '@' !in port
    ensures ValidAuthority(host)
    ensures ValidAuthority(host + [':'] + port) <==> IsPort(port)
  {
    FindFirstIs(host, IsColon, |host|);
    var auth := host + [':'] + port;
    assert '@' !in auth by {
      forall j | 0 <= j < |auth| ensures auth[j] != '@' {
        if j < |host| {
          assert auth[j] == host[j];
        } else if j > |host| {
          assert auth[j] == port[j - |host| - 1];
        }
      }
    }
    assert auth[|host|] == ':';
    assert forall j :: 0 <= j < |host| ==> auth[j] == host[j];
    FindFirstIs(auth, IsColon, |host|);
    assert auth[|host| + 1..] == port;
  }

  /** The URL Standard's parser rejects an empty host after the userinfo
      or before the port. */
  lemma MissingHost(userinfo: string, port: string)
    requires '@' !in port
    ensures !ValidAuthority(userinfo + ['@'])
    ensures !ValidAuthority(userinfo + ['@', ':'] + port)
    ensures !ValidAuthority([':'] + port)
  {
    EmptyHostAfterUserinfo(userinfo);
    EmptyHostBeforePort(port);
    var colonPort := [':'] + port;
    assert userinfo + ['@', ':'] + port == (userinfo + ['@']) + colonPort;
    AfterLastAppend(userinfo + ['@'], colonPort, '@');
  }

  lemma EmptyHostAfterUserinfo(userinfo: string)
    ensures !ValidAuthority(userinfo + ['@'])
  {
    assert AfterLast(userinfo + ['@'], '@') == [];
  }

  /** A `:` that opens the authority leaves the host empty. */
  lemma EmptyHostBeforePort(port: string)
    requires '@' !in port
    ensures '@' !in [':'] + port && FindFirst([':'] + port, IsColon) == 0
    ensures !ValidAuthority([':'] + port)
  {
    var colonPort := [':'] + port;
    assert '@' !in colonPort by {
      forall j | 0 <= j < |colonPort| ensures colonPort[j] != '@' {
        if j > 0 {
          assert colonPort[j] == port[j - 1];
        }
      }
    }
    FindFirstIs(colonPort, IsColon, 0);
  }

  /** What follows the last `c` of `a + b` is what follows it in `b`, when
      `b` holds no `c` and `a` ends in one. */
  lemma AfterLastAppend(a: string, b: string, c: char)
    requires a != [] && a[|a| - 1] == c && c !in b
    ensures AfterLast(a + b, c) == b
  {
    var s := a + b;
    var r := AfterLast(s, c);
    assert s[|a|..] == b;
  }

  /** After `//`, an authority the URL Standard rejects makes `new URL`
      fail, whatever path follows. */
  lemma {:induction false} SpecialPathRejects(host: string, x: string)
    requires host != [] && forall i :: 0 <= i < |host| ==> !IsSpecialHostEnd(host[i])
    requires x == [] || IsSpecialHostEnd(x[0])
    requires !ValidAuthority(host)
    ensures SpecialPath(['/', '/'] + host + x) == None
  {
    SpecialPathSplit(['/', '/'], host, x);
  }

  /** Both parsers' readings of `<scheme>://<authority><path><rest>` when
      the authority is one the URL Standard rejects: `urlparse` still finds
      the path, `new URL` fails. */
  lemma {:induction false} BadAuthorityPaths(scheme: string, host: string, path: string, rest: string)
    requires StartsWith(scheme, "http") && forall i :: 0 <= i < |scheme| ==> IsSchemeChar(scheme[i])
    requires host != [] && !ValidAuthority(host) && forall i :: 0 <= i < |host| ==> IsPlainHostChar(host[i])
    requires (path == [] || path[0] == '/') && forall i :: 0 <= i < |path| ==> IsPlainPathChar(path[i])
    requires (rest == [] || IsPathEnd(rest[0])) && NoTabs(rest)
    ensures var line := scheme + "://" + host + path + rest;
      PyUrlPath(line) == path && JsUrlPath(line).None?
  {
    var x := path + rest;
    PathThenRest(path, rest);
    SkipAuthority(host, x);
    if path != [] {
      assert x[0] == path[0];
    } else {
      assert x == rest;
    }
    SpecialPathRejects(host, x);
    NonSpecialPathSplit(host, x);
    BadLinePaths(scheme, host, path, rest);
  }

  /** Both parsers read the URL line as they read what follows its `:`. */
  lemma {:induction false} BadLinePaths(scheme: string, host: string, path: string, rest: string)
    requires StartsWith(scheme, "http") && forall i :: 0 <= i < |scheme| ==> IsSchemeChar(scheme[i])
    requires forall i :: 0 <= i < |host| ==> IsPlainHostChar(host[i])
    requires forall i :: 0 <= i < |path| ==> IsPlainPathChar(path[i])
    requires NoTabs(rest)
    requires var hier := ['/', '/'] + host + (path + rest);
      PathOf(hier) == path && SpecialPath(hier).None? && NonSpecialPath(hier).None?
    ensures var line := scheme + "://" + host + path + rest;
      PyUrlPath(line) == path && JsUrlPath(line).None?
  {
    var line := scheme + "://" + host + path + rest;
    var hier := ['/', '/'] + host + (path + rest);
    UrlLineParts(scheme, host, path, rest);
    UrlLineNoTabs(scheme, host, path, rest);
    StartsWithHttp(scheme);
    SchemeEndAfter(scheme, hier);
    assert ';' !in path;
    PyUrlPathAfterScheme(line, |scheme|);
    JsUrlPathAfterScheme(line, |scheme|);
  }

  /** A line of any scheme starting with `http` whose authority the URL
      Standard rejects (an empty host after the userinfo or before the
      port, or a port that is not digits or exceeds 65535): Python still
      reads the slug of the path, `normalizeSlug` gives `''` and `slugFrom`
      throws. */
  lemma {:induction false} BadAuthorityLine(scheme: string, host: string, path: string, rest: string)
    requires StartsWith(scheme, "http") && forall i :: 0 <= i < |scheme| ==> IsSchemeChar(scheme[i])
    requires host != [] && !ValidAuthority(host) && forall i :: 0 <= i < |host| ==> IsPlainHostChar(host[i])
    requires (path == [] || path[0] == '/') && forall i :: 0 <= i < |path| ==> IsPlainPathChar(path[i])
    requires (rest == [] || IsPathEnd(rest[0])) && NoTabs(rest)
    requires Untrimmed(scheme + "://" + host + path + rest)
    ensures SlugFrom(scheme + "://" + host + path + rest) == CwSlug(path)
    ensures NormalizeSlug(scheme + "://" + host + path + rest) == ""
    ensures SlugFromJs(scheme + "://" + host + path + rest) == Threw(InvalidUrl)
  {
    var line := scheme + "://" + host + path + rest;
    UrlLineStartsWith(scheme, host, path, rest);
    HttpLineUntrimmed(line);
    BadAuthorityPaths(scheme, host, path, rest);
  }

  /** `httpx://<host>/cw/<id>` with a non-empty, invalid authority: Python
      reads `<id>`, the TypeScript copy gives `''` and the Node copies
      throw. */
  lemma {:induction false} HttpxBadLine(host: string, id: string)
    requires host != [] && !ValidAuthority(host) && forall i :: 0 <= i < |host| ==> IsPlainHostChar(host[i])
    requires id != [] && forall i :: 0 <= i < |id| ==> IsPlainPathChar(id[i]) && id[i] != '/' && !IsSpace(Python, id[i]) && !IsSpace(JavaScript, id[i])
    ensures SlugFrom("httpx://" + host + "/cw/" + id) == id && NormalizeSlug("httpx://" + host + "/cw/" + id) == ""
    ensures SlugFromJs("httpx://" + host + "/cw/" + id) == Threw(InvalidUrl)
  {
    var path := "/cw/" + id;
    var line := "httpx" + "://" + host + path + "";
    assert line == "httpx://" + host + "/cw/" + id;
    HttpxScheme();
    CwIdPath(id);
    assert line[|line| - 1] == id[|id| - 1];
    BadAuthorityLine("httpx", host, path, "");
  }

  /** `httpx` is a scheme starting with `http`. */
  lemma HttpxScheme()
    ensures StartsWith("httpx", "http") && forall i :: 0 <= i < |"httpx"| ==> IsSchemeChar("httpx"[i])
  {
  }

  /** `/cw/<id>` is a plain path naming the slug `<id>`. */
  lemma CwIdPath(id: string)
    requires id != [] && forall i :: 0 <= i < |id| ==> IsPlainPathChar(id[i]) && id[i] != '/'
    ensures var path := "/cw/" + id;
      path[0] == '/' && (forall i :: 0 <= i < |path| ==> IsPlainPathChar(path[i])) && CwSlug(path) == id
  {
    var path := "/cw/" + id;
    assert path == ['/', 'c', 'w', '/'] + id + [];
    assert forall i :: 0 <= i < |path| ==> IsPlainPathChar(path[i]) by {
      forall i | 0 <= i < |path| ensures IsPlainPathChar(path[i]) {
        if i >= 4 {
          assert path[i] == id[i - 4];
        }
      }
    }
    CwPathSegments(id, []);
  }

  /** `httpx://<userinfo>@/cw/<id>`: the host after the userinfo is
      empty. */
  lemma {:induction false} HttpxMissingHost(userinfo: string, id: string)
    requires forall i :: 0 <= i < |userinfo| ==> IsPlainHostChar(userinfo[i])
    requires id != [] && forall i :: 0 <= i < |id| ==> IsPlainPathChar(id[i]) && id[i] != '/' && !IsSpace(Python, id[i]) && !IsSpace(JavaScript, id[i])
    ensures SlugFrom("httpx://" + userinfo + "@/cw/" + id) == id && NormalizeSlug("httpx://" + userinfo + "@/cw/" + id) == ""
    ensures SlugFromJs("httpx://" + userinfo + "@/cw/" + id) == Threw(InvalidUrl)
  {
    var host := userinfo + ['@'];
    HostAfter(userinfo, "@/cw/", ['@'], "/cw/", id);
    PlainHostAppend(userinfo, ['@']);
    MissingHost(userinfo, []);
    HttpxBadLine(host, id);
  }

  /** `httpx://<host>:<port>/cw/<id>` with a port that is not digits or
      exceeds 65535. */
  lemma {:induction false} HttpxBadPort(host: string, port: string, id: string)
    requires host != [] && ':' !in host && '@' !in host && '@' !in port && !IsPort(port)
    requires forall i :: 0 <= i < |host| ==> IsPlainHostChar(host[i])
    requires forall i :: 0 <= i < |port| ==> IsPlainHostChar(port[i])
    requires id != [] && forall i :: 0 <= i < |id| ==> IsPlainPathChar(id[i]) && id[i] != '/' && !IsSpace(Python, id[i]) && !IsSpace(JavaScript, id[i])
    ensures SlugFrom("httpx://" + host + ":" + port + "/cw/" + id) == id
    ensures NormalizeSlug("httpx://" + host + ":" + port + "/cw/" + id) == ""
    ensures SlugFromJs("httpx://" + host + ":" + port + "/cw/" + id) == Threw(InvalidUrl)
  {
    var hostColon := host + [':'];
    var auth := hostColon + port;
    HostAfter(host, ":", [':'], [], port);
    HostAfter(hostColon, port + "/cw/", port, "/cw/", id);
    assert "httpx://" + host + ":" + port + "/cw/" + id == "httpx://" + auth + "/cw/" + id by {
      AppendAssoc("httpx://" + host, ":", port);
    }
    PlainHostAppend(host, [':']);
    PlainHostAppend(hostColon, port);
    HostPortAuthority(host, port);
    HttpxBadLine(auth, id);
  }

  /** Regrouping a line around the authority it holds. */
  lemma HostAfter(a: string, bc: string, b: string, c: string, d: string)
    requires bc == b + c
    ensures "httpx://" + a + bc + d == "httpx://" + (a + b) + c + d
  {
  }

  /** Plain host characters joined stay plain. */
  lemma PlainHostAppend(a: string, b: string)
    requires forall i :: 0 <= i < |a| ==> IsPlainHostChar(a[i])
    requires forall i :: 0 <= i < |b| ==> IsPlainHostChar(b[i])
    ensures forall i :: 0 <= i < |a + b| ==> IsPlainHostChar((a + b)[i])
  {
  }
}
