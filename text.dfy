/** String helpers with the exact semantics the scraper's languages give them:
    whitespace trimming (Python `str.strip`, JavaScript `String.prototype.trim`),
    ASCII lower-casing, substring tests, splitting and joining. */
module Text {

  /** The two runtimes whose string built-ins differ in the details modelled here. */
  datatype Lang = Python | JavaScript

  /** Whitespace as `str.strip()` (Python) and `trim()` (JavaScript) see it.
      Both strip tab to carriage return, the space, no-break space and the
      Unicode space separators and line/paragraph separators; only Python also
      strips the information separators U+001C..U+001F and NEL (U+0085), and
      only JavaScript also strips the byte-order mark U+FEFF. */
  predicate IsSpace(lang: Lang, c: char) {
    || c == ' '
    || ('\t' <= c <= '\r')
    || c == '\U{00A0}' || c == '\U{1680}'
    || ('\U{2000}' <= c <= '\U{200A}')
    || c == '\U{2028}' || c == '\U{2029}' || c == '\U{202F}' || c == '\U{205F}' || c == '\U{3000}'
    || (lang == Python && (('\U{001C}' <= c <= '\U{001F}') || c == '\U{0085}'))
    || (lang == JavaScript && c == '\U{FEFF}')
  }

  /** Removes leading whitespace. */
  function TrimStart(lang: Lang, s: string): (r: string)
    ensures |r| <= |s| && r == s[|s| - |r|..]
    ensures r == [] || !IsSpace(lang, r[0])
    ensures forall i :: 0 <= i < |s| - |r| ==> IsSpace(lang, s[i])
  {
    if |s| > 0 && IsSpace(lang, s[0]) then TrimStart(lang, s[1..]) else s
  }

  /** Removes trailing whitespace. */
  function TrimEnd(lang: Lang, s: string): (r: string)
    ensures |r| <= |s| && r == s[..|r|]
    ensures r == [] || !IsSpace(lang, r[|r| - 1])
    ensures forall i :: |r| <= i < |s| ==> IsSpace(lang, s[i])
  {
    if |s| > 0 && IsSpace(lang, s[|s| - 1]) then TrimEnd(lang, s[..|s| - 1]) else s
  }

  /** `str.strip()` / `String.prototype.trim()`: the input with whitespace
      removed from both ends. The result is empty exactly when the input is
      all whitespace, and otherwise starts and ends with a non-space. The
      result is the slice of the input between a whitespace prefix and a
      whitespace suffix. */
  function Trim(lang: Lang, s: string): (r: string)
    ensures r == [] <==> forall i :: 0 <= i < |s| ==> IsSpace(lang, s[i])
    ensures r != [] ==> !IsSpace(lang, r[0]) && !IsSpace(lang, r[|r| - 1])
    ensures |r| <= |s|
    ensures exists a :: StripsTo(lang, s, a, r)
  {
    TrimFacts(lang, s);
    TrimEnd(lang, TrimStart(lang, s))
  }

  /** The facts `Trim` states, about the composition that computes it. */
  lemma TrimFacts(lang: Lang, s: string)
    ensures var r := TrimEnd(lang, TrimStart(lang, s));
      && (r == [] <==> forall i :: 0 <= i < |s| ==> IsSpace(lang, s[i]))
      && (r != [] ==> !IsSpace(lang, r[0]) && !IsSpace(lang, r[|r| - 1]))
      && |r| <= |s|
      && exists a :: StripsTo(lang, s, a, r)
  {
    var t := TrimStart(lang, s);
    var r := TrimEnd(lang, t);
    LeadingSpace(lang, s, t);
    TrailingSpace(lang, t, r);
    TrimSlice(lang, s, t, r);
    TrimEnds(lang, s, t, r);
  }

  /** The trimmed text is empty exactly when the input is all whitespace, and
      otherwise starts and ends with a non-space. */
  lemma TrimEnds(lang: Lang, s: string, t: string, r: string)
    requires t == TrimStart(lang, s) && r == TrimEnd(lang, t)
    ensures r == [] <==> forall i :: 0 <= i < |s| ==> IsSpace(lang, s[i])
    ensures r != [] ==> !IsSpace(lang, r[0]) && !IsSpace(lang, r[|r| - 1])
  {
    if r == [] {
      assert t == [];
    } else {
      assert r[0] == t[0];
    }
  }

  /** Trimming the start and then the end of `s` leaves the slice of `s`
      after its leading whitespace and before its trailing whitespace. */
  lemma TrimSlice(lang: Lang, s: string, t: string, r: string)
    requires |t| <= |s| && t == s[|s| - |t|..] && AllSpace(lang, s[..|s| - |t|])
    requires |r| <= |t| && r == t[..|r|] && AllSpace(lang, t[|r|..])
    ensures StripsTo(lang, s, |s| - |t|, r)
  {
    DropSlices(s, t, |s| - |t|, |r|);
  }

  /** `TrimStart` removes an all-whitespace prefix. */
  lemma LeadingSpace(lang: Lang, s: string, t: string)
    requires t == TrimStart(lang, s)
    ensures t == s[|s| - |t|..] && AllSpace(lang, s[..|s| - |t|])
  {
    var head := s[..|s| - |t|];
    forall i | 0 <= i < |head| ensures IsSpace(lang, head[i]) {
      assert head[i] == s[i];
    }
  }

  /** `TrimEnd` removes an all-whitespace suffix. */
  lemma TrailingSpace(lang: Lang, t: string, r: string)
    requires r == TrimEnd(lang, t)
    ensures r == t[..|r|] && AllSpace(lang, t[|r|..])
  {
    var tail := t[|r|..];
    forall i | 0 <= i < |tail| ensures IsSpace(lang, tail[i]) {
      assert tail[i] == t[|r| + i];
    }
  }

  /** Slicing the suffix `t` of `s` that starts at `a` is slicing `s` shifted by `a`. */
  lemma DropSlices(s: string, t: string, a: nat, k: nat)
    requires a + |t| == |s| && t == s[a..] && k <= |t|
    ensures t[..k] == s[a..a + k] && t[k..] == s[a + k..]
  {
  }

  /** `r` is `s` without a whitespace prefix of length `a` and a whitespace
      suffix. */
  ghost predicate StripsTo(lang: Lang, s: string, a: int, r: string) {
    0 <= a && a + |r| <= |s| && r == s[a..a + |r|] && AllSpace(lang, s[..a]) && AllSpace(lang, s[a + |r|..])
  }

  /** Every character of `s` is whitespace. */
  ghost predicate AllSpace(lang: Lang, s: string) {
    forall i :: 0 <= i < |s| ==> IsSpace(lang, s[i])
  }

  /** A string already trimmed is left unchanged by trimming. */
  lemma TrimUnchanged(lang: Lang, s: string)
    requires s == [] || (!IsSpace(lang, s[0]) && !IsSpace(lang, s[|s| - 1]))
    ensures Trim(lang, s) == s
  {
  }

  /** Trimming keeps only characters of the input. */
  lemma TrimWithin(lang: Lang, s: string)
    ensures forall i :: 0 <= i < |Trim(lang, s)| ==> Trim(lang, s)[i] in s
  {
    var t := TrimStart(lang, s);
    var r := TrimEnd(lang, t);
    forall i | 0 <= i < |r| ensures r[i] in s {
      assert r[i] == t[i] == s[|s| - |t| + i];
    }
  }

  /** When the two runtimes agree on every character of `s` being whitespace
      or not, they trim `s` to the same string. */
  lemma {:induction false} TrimAgrees(s: string)
    requires forall i :: 0 <= i < |s| ==> (IsSpace(Python, s[i]) <==> IsSpace(JavaScript, s[i]))
    ensures Trim(Python, s) == Trim(JavaScript, s)
  {
    StartAgrees(s);
    var t := TrimStart(Python, s);
    EndAgrees(t);
  }

  lemma {:induction false} StartAgrees(s: string)
    requires forall i :: 0 <= i < |s| ==> (IsSpace(Python, s[i]) <==> IsSpace(JavaScript, s[i]))
    ensures TrimStart(Python, s) == TrimStart(JavaScript, s)
  {
    if |s| > 0 && IsSpace(Python, s[0]) {
      StartAgrees(s[1..]);
    }
  }

  lemma {:induction false} EndAgrees(s: string)
    requires forall i :: 0 <= i < |s| ==> (IsSpace(Python, s[i]) <==> IsSpace(JavaScript, s[i]))
    ensures TrimEnd(Python, s) == TrimEnd(JavaScript, s)
  {
    if |s| > 0 && IsSpace(Python, s[|s| - 1]) {
      EndAgrees(s[..|s| - 1]);
    }
  }

  /** ASCII lower-casing of one character; every other character is kept. */
  function LowerChar(c: char): char {
    if 'A' <= c <= 'Z' then (c as int + 32) as char else c
  }

  /** `lower()` / `toLowerCase()` restricted to ASCII letters. */
  function Lower(s: string): (r: string)
    ensures |r| == |s|
    ensures forall i :: 0 <= i < |s| ==> r[i] == LowerChar(s[i])
  {
    seq(|s|, i requires 0 <= i < |s| => LowerChar(s[i]))
  }

  predicate StartsWith(s: string, prefix: string) {
    |prefix| <= |s| && s[..|prefix|] == prefix
  }

  /** `needle in s` / `s.includes(needle)`: some suffix of `s` starts with `needle`. */
  predicate Contains(s: string, needle: string)
    decreases |s|
  {
    StartsWith(s, needle) || (|s| > 0 && Contains(s[1..], needle))
  }

  /** A non-empty needle is never contained in the empty string. */
  lemma ContainsNonEmpty(s: string, needle: string)
    requires needle != [] && Contains(s, needle)
    ensures s != []
  {
  }

  /** A string with no upper-case ASCII letter is its own lower-case form. */
  lemma LowerOfLowerCase(s: string)
    requires forall i :: 0 <= i < |s| ==> !('A' <= s[i] <= 'Z')
    ensures Lower(s) == s
  {
  }

  /** An occurrence at position `i` is an occurrence. */
  lemma {:induction false} ContainsAt(s: string, needle: string, i: nat)
    requires i <= |s| && StartsWith(s[i..], needle)
    ensures Contains(s, needle)
  {
    if i > 0 {
      assert s[1..][i - 1..] == s[i..];
      ContainsAt(s[1..], needle, i - 1);
    } else {
      assert s[0..] == s;
    }
  }

  /** A string lacking one of the needle's characters does not contain the needle. */
  lemma {:induction false} NotContainsMissing(s: string, needle: string, c: char)
    requires c in needle && c !in s
    ensures !Contains(s, needle)
  {
    if |s| > 0 {
      NotContainsMissing(s[1..], needle, c);
    }
  }

  /** Index of the first character satisfying `stop`, or `|s|` if there is none. */
  function FindFirst(s: string, stop: char -> bool): (n: nat)
    ensures n <= |s|
    ensures n < |s| ==> stop(s[n])
    ensures forall i :: 0 <= i < n ==> !stop(s[i])
  {
    if s == [] || stop(s[0]) then 0 else 1 + FindFirst(s[1..], stop)
  }

  /** `FindFirst` returns the position of the first matching character. */
  lemma FindFirstIs(s: string, stop: char -> bool, n: nat)
    requires n <= |s| && (n < |s| ==> stop(s[n]))
    requires forall j :: 0 <= j < n ==> !stop(s[j])
    ensures FindFirst(s, stop) == n
  {
  }

  /** `parts.join(sep)` / `sep.join(parts)`. */
  function Join(parts: seq<string>, sep: string): string
  {
    if |parts| == 0 then "" else if |parts| == 1 then parts[0] else parts[0] + sep + Join(parts[1..], sep)
  }

  /** JavaScript's `s.split(c)` for a one-character separator: the pieces
      between separators, always at least one, none containing `c`. */
  function SplitOn(s: string, c: char): (r: seq<string>)
    ensures |r| >= 1
    ensures forall k :: 0 <= k < |r| ==> c !in r[k]
  {
    if s == [] then [""]
    else
      var tail := SplitOn(s[1..], c);
      if s[0] == c then [""] + tail else [[s[0]] + tail[0]] + tail[1..]
  }

  /** Joining the pieces of a split with the separator gives back the string. */
  lemma {:induction false} JoinSplitOn(s: string, c: char)
    ensures Join(SplitOn(s, c), [c]) == s
  {
    if s != [] {
      var tail := SplitOn(s[1..], c);
      JoinSplitOn(s[1..], c);
      if s[0] == c {
        assert SplitOn(s, c) == [""] + tail;
      } else {
        var r := SplitOn(s, c);
        assert r == [[s[0]] + tail[0]] + tail[1..];
        if |tail| == 1 {
          assert Join(tail, [c]) == tail[0];
        } else {
          assert Join(tail, [c]) == tail[0] + [c] + Join(tail[1..], [c]);
          assert r[1..] == tail[1..];
        }
      }
    }
  }

  /** Splitting `a` followed by anything, when `a` has no separator, glues
      `a` to the front of the first piece. */
  lemma {:induction false} SplitOnPrefix(a: string, rest: string, c: char)
    requires c !in a
    ensures SplitOn(a + rest, c) == [a + SplitOn(rest, c)[0]] + SplitOn(rest, c)[1..]
  {
    if a != [] {
      var r := SplitOn(rest, c);
      assert (a + rest)[1..] == a[1..] + rest;
      SplitOnPrefix(a[1..], rest, c);
      var tail := SplitOn(a[1..] + rest, c);
      assert tail[0] == a[1..] + r[0] && tail[1..] == r[1..];
      assert (a + rest)[0] == a[0];
      assert [a[0]] + (a[1..] + r[0]) == a + r[0];
    } else {
      var r := SplitOn(rest, c);
      assert a + rest == rest;
      assert a + r[0] == r[0];
      assert r == [r[0]] + r[1..];
    }
  }

  /** Splitting a join gives back the parts, provided no part holds the separator. */
  lemma {:induction false} SplitOnJoin(parts: seq<string>, c: char)
    requires |parts| >= 1
    requires forall k :: 0 <= k < |parts| ==> c !in parts[k]
    ensures SplitOn(Join(parts, [c]), c) == parts
  {
    if |parts| == 1 {
      SplitOnPrefix(parts[0], "", c);
      assert parts[0] + "" == parts[0];
    } else {
      var rest := Join(parts[1..], [c]);
      SplitOnJoin(parts[1..], c);
      assert Join(parts, [c]) == parts[0] + ([c] + rest);
      SplitOnPrefix(parts[0], [c] + rest, c);
      assert ([c] + rest)[1..] == rest;
      assert SplitOn([c] + rest, c) == [""] + SplitOn(rest, c);
      assert parts[0] + "" == parts[0];
    }
  }

  /** `filter(Boolean)` / `if s:` on a list of strings: drops the empty ones, keeps the order. */
  function DropEmpty(xs: seq<string>): (r: seq<string>)
    ensures forall x :: x in r <==> x in xs && x != ""
    ensures |r| <= |xs|
  {
    if xs == [] then [] else (if xs[0] == "" then [] else [xs[0]]) + DropEmpty(xs[1..])
  }

  /** `DropEmpty` unfolded at the end, as a loop that appends meets it. */
  lemma {:induction false} DropEmptySnoc(xs: seq<string>, x: string)
    ensures DropEmpty(xs + [x]) == DropEmpty(xs) + (if x == "" then [] else [x])
  {
    if xs != [] {
      assert (xs + [x])[1..] == xs[1..] + [x];
      DropEmptySnoc(xs[1..], x);
    } else {
      assert DropEmpty([x]) == (if x == "" then [] else [x]) + DropEmpty([]);
    }
  }

  /** The line-break characters of Python's `str.splitlines`. */
  predicate IsLineBreak(c: char) {
    || c == '\n' || c == '\r' || c == '\U{000B}' || c == '\U{000C}'
    || ('\U{001C}' <= c <= '\U{001E}')
    || c == '\U{0085}' || c == '\U{2028}' || c == '\U{2029}'
  }

  /** Python's `str.splitlines()`: lines without their terminators; `\r\n`
      is one terminator and a final terminator does not start a new line. */
  function SplitLines(s: string): (r: seq<string>)
    ensures forall k, i :: 0 <= k < |r| && 0 <= i < |r[k]| ==> !IsLineBreak(r[k][i])
    decreases |s|
  {
    if s == [] then []
    else
      var n := FindFirst(s, IsLineBreak);
      if n == |s| then [s]
      else
        var skip := if s[n] == '\r' && n + 1 < |s| && s[n + 1] == '\n' then 2 else 1;
        [s[..n]] + SplitLines(s[n + skip..])
  }

  /** A text whose only line break is `\n` and which does not end in one
      splits into the lines between its `\n`s, so joining the lines with
      `\n` gives the text back. */
  lemma {:induction false} SplitLinesOnNewline(s: string)
    requires s != [] && s[|s| - 1] != '\n'
    requires forall i :: 0 <= i < |s| && IsLineBreak(s[i]) ==> s[i] == '\n'
    ensures SplitLines(s) == SplitOn(s, '\n')
    ensures Join(SplitLines(s), "\n") == s
    decreases |s|
  {
    var n := FindFirst(s, IsLineBreak);
    if n == |s| {
      LastLine(s);
    } else {
      var rest := s[n + 1..];
      assert s[n] == '\n' && n < |s| - 1;
      assert forall i :: 0 <= i < |rest| ==> rest[i] == s[n + 1 + i];
      SplitLinesOnNewline(rest);
      NewlineStep(s, n);
    }
    JoinSplitOn(s, '\n');
  }

  /** A text with no line break is one line, and one piece. */
  lemma LastLine(s: string)
    requires s != [] && forall i :: 0 <= i < |s| ==> !IsLineBreak(s[i])
    ensures SplitLines(s) == SplitOn(s, '\n') == [s]
  {
    FindFirstIs(s, IsLineBreak, |s|);
    assert '\n' !in s;
    SplitOnPrefix(s, "", '\n');
    assert s + "" == s;
  }

  /** Splitting at the first `\n`: the piece before it, then the pieces of
      the rest. */
  lemma NewlineStep(s: string, n: nat)
    requires n < |s| - 1 && n == FindFirst(s, IsLineBreak) && s[n] == '\n'
    ensures SplitLines(s) == [s[..n]] + SplitLines(s[n + 1..])
    ensures SplitOn(s, '\n') == [s[..n]] + SplitOn(s[n + 1..], '\n')
  {
    SplitAround(s, n);
    NewlineSplitOn(s[..n], s[n + 1..]);
  }

  lemma SplitAround<T>(s: seq<T>, n: nat)
    requires n < |s|
    ensures s == s[..n] + ([s[n]] + s[n + 1..])
  {
    assert s[n..] == [s[n]] + s[n + 1..];
    assert s == s[..n] + s[n..];
  }

  lemma NewlineSplitOn(a: string, rest: string)
    requires '\n' !in a
    ensures SplitOn(a + (['\n'] + rest), '\n') == [a] + SplitOn(rest, '\n')
  {
    SplitOnPrefix(a, ['\n'] + rest, '\n');
    assert (['\n'] + rest)[1..] == rest;
    assert SplitOn(['\n'] + rest, '\n') == [""] + SplitOn(rest, '\n');
    assert a + "" == a;
  }

  /** Decimal digits of a natural number, as JavaScript's template strings print it. */
  function NatToString(n: nat): (r: string)
    ensures r != []
    ensures forall i :: 0 <= i < |r| ==> '0' <= r[i] <= '9'
  {
    if n < 10 then [Digit(n)] else NatToString(n / 10) + [Digit(n % 10)]
  }

  function Digit(d: nat): (c: char)
    requires d < 10
    ensures '0' <= c <= '9'
  {
    ('0' as int + d) as char
  }

  /** Concatenation regrouped; proofs call it to keep the regrouping apart
      from the heavier terms around it. */
  lemma AppendAssoc<T>(a: seq<T>, b: seq<T>, c: seq<T>)
    ensures (a + b) + c == a + (b + c)
  {
  }

  /** `f` applied to every line, in line order. */
  function MapLines(f: string -> string, lines: seq<string>): (r: seq<string>)
    ensures |r| == |lines| && forall i :: 0 <= i < |lines| ==> r[i] == f(lines[i])
  {
    seq(|lines|, i requires 0 <= i < |lines| => f(lines[i]))
  }

  /** Mapping one more line appends its image. */
  lemma MapLinesSnoc(f: string -> string, lines: seq<string>, i: nat)
    requires i < |lines|
    ensures MapLines(f, lines[..i + 1]) == MapLines(f, lines[..i]) + [f(lines[i])]
  {
    var a, b := MapLines(f, lines[..i + 1]), MapLines(f, lines[..i]) + [f(lines[i])];
    forall k | 0 <= k < i + 1 ensures a[k] == b[k] {
      if k < i {
        assert lines[..i + 1][k] == lines[..i][k];
      }
    }
  }
}
