/** netlify/functions/scrape.ts: the Netlify function that fetches each
    community page's HTML and scans it with regular expressions instead of
    driving a browser. The network is not modelled: what `fetch` gave for
    each slug is an input. */
module NetlifyScrape {
  import opened Common
  import opened Text
  import opened Unique
  import opened Links
  import opened Requests

  /** The two kinds of global regular expression the function scans with:
      `href=["'](https?:\/\/[^"']+)["']` and `(https?:\/\/HOST\/[^\s"']+)`
      for each `HOST/` of `hosts`, all case-insensitive. */
  datatype Pattern = HrefAttribute | SocialUrl(hosts: seq<string>)

  /** A match: the captured link and the index just after the match, where
      the next `exec` resumes (`lastIndex`). */
  datatype Capture = Capture(link: string, end: nat)

  predicate IsQuote(c: char) { c == '"' || c == '\'' }

  /** `[\s"']`: what ends the captured run of a social pattern. */
  predicate EndsSocialUrl(c: char) { IsSpace(JavaScript, c) || IsQuote(c) }

  /** `s` starts, ignoring ASCII case, with `http://` or `https://` followed
      by `rest` (already lower-case), and has at least one more character. */
  predicate HasUrlPrefix(s: string, rest: string) {
    var lower := Lower(s);
    (|s| > 7 + |rest| && lower[..7 + |rest|] == "http://" + rest) ||
    (|s| > 8 + |rest| && lower[..8 + |rest|] == "https://" + rest)
  }

  /** What every capture of a pattern looks like. */
  predicate CaptureShape(link: string, pat: Pattern) {
    match pat
    case HrefAttribute =>
      HasUrlPrefix(link, "") && forall i :: 0 <= i < |link| ==> !IsQuote(link[i])
    case SocialUrl(hosts) =>
      (exists host :: host in hosts && HasUrlPrefix(link, host)) &&
      forall i :: 0 <= i < |link| ==> !EndsSocialUrl(link[i])
  }

  /** The match of `pat` that starts exactly at `p`, if any. The captured run
      is greedy and cannot contain the character that ends it, so it runs to
      the first such character: a closing quote that must be there (href), or
      whitespace, a quote or the end of the text (social). */
  function MatchAt(h: string, p: nat, pat: Pattern): (r: Option<Capture>)
    requires p <= |h|
    ensures r.Some? ==> p < r.value.end <= |h| && r.value.link != ""
  {
    match pat
    case HrefAttribute =>
      if p + 6 <= |h| && Lower(h[p..p + 5]) == "href=" && IsQuote(h[p + 5]) then
        var q := p + 6 + FindFirst(h[p + 6..], IsQuote);
        if q < |h| && HasUrlPrefix(h[p + 6..q], "") then Some(Capture(h[p + 6..q], q + 1)) else None
      else None
    case SocialUrl(hosts) =>
      var e := p + FindFirst(h[p..], EndsSocialUrl);
      if exists host :: host in hosts && HasUrlPrefix(h[p..e], host) then Some(Capture(h[p..e], e)) else None
  }

  /** `pattern.exec(html)` with `lastIndex == from`: the leftmost match
      starting at or after `from`. */
  function Exec(h: string, from: nat, pat: Pattern): (r: Option<Capture>)
    decreases |h| - from
    ensures r.Some? ==> from < r.value.end <= |h| && r.value.link != ""
  {
    if from >= |h| then None
    else
      match MatchAt(h, from, pat)
      case Some(c) => Some(c)
      case None => Exec(h, from + 1, pat)
  }

  /** The links the `while ((match = pattern.exec(html)) !== null)` loop sees,
      in order, starting from `lastIndex == from`. */
  function AllMatches(h: string, from: nat, pat: Pattern): (r: seq<string>)
    decreases |h| - from
  {
    match Exec(h, from, pat)
    case None => []
    case Some(c) => [c.link] + AllMatches(h, c.end, pat)
  }

  /** Every match has the shape its pattern describes. */
  lemma MatchAtShape(h: string, p: nat, pat: Pattern)
    requires p <= |h| && MatchAt(h, p, pat).Some?
    ensures CaptureShape(MatchAt(h, p, pat).value.link, pat)
  {
    match pat
    case HrefAttribute =>
      var q := p + 6 + FindFirst(h[p + 6..], IsQuote);
      var link := h[p + 6..q];
      assert forall i :: 0 <= i < |link| ==> link[i] == h[p + 6..][i];
    case SocialUrl(hosts) =>
      var e := p + FindFirst(h[p..], EndsSocialUrl);
      var link := h[p..e];
      assert forall i :: 0 <= i < |link| ==> link[i] == h[p..][i];
  }

  lemma {:induction false} ExecShape(h: string, from: nat, pat: Pattern)
    requires Exec(h, from, pat).Some?
    ensures CaptureShape(Exec(h, from, pat).value.link, pat)
    decreases |h| - from
  {
    if MatchAt(h, from, pat).Some? {
      MatchAtShape(h, from, pat);
    } else {
      ExecShape(h, from + 1, pat);
    }
  }

  /** Every link an `exec` loop sees has its pattern's shape. */
  lemma {:induction false} AllMatchesShape(h: string, from: nat, pat: Pattern)
    ensures forall l :: l in AllMatches(h, from, pat) ==> CaptureShape(l, pat)
    decreases |h| - from
  {
    var m := Exec(h, from, pat);
    if m.Some? {
      ExecShape(h, from, pat);
      AllMatchesShape(h, m.value.end, pat);
    }
  }

  /** `linkPatterns`: the same `href` pattern, twice. */
  const LinkPatterns: seq<Pattern> := [HrefAttribute, HrefAttribute]

  /** `socialPatterns`, in order. */
  const SocialPatterns: seq<Pattern> := [
    SocialUrl(["discord.gg/", "discord.com/"]),
    SocialUrl(["x.com/", "twitter.com/"]),
    SocialUrl(["t.me/"]),
    SocialUrl(["telegram.me/"])
  ]

  /** The `href` links, without zealy.io ones, first occurrences kept. */
  function HrefLinks(h: string): seq<string> {
    Dedup(DropZealy(AllMatches(h, 0, HrefAttribute)))
  }

  /** The matches of each pattern of `pats`, pattern after pattern. */
  function MatchesOfAll(h: string, pats: seq<Pattern>): seq<string> {
    if pats == [] then [] else MatchesOfAll(h, pats[..|pats| - 1]) + AllMatches(h, 0, pats[|pats| - 1])
  }

  /** The `links` list the scanning builds: the `href` links, then the
      social-pattern links not already there. */
  function ScrapedLinks(h: string): seq<string> {
    Dedup(DropZealy(AllMatches(h, 0, HrefAttribute)) + MatchesOfAll(h, SocialPatterns))
  }

  /** One `exec` call moves one match from the matches still ahead to the
      matches seen. */
  lemma ExecStep(h: string, last: nat, pat: Pattern, done: seq<string>)
    requires Exec(h, last, pat).Some?
    ensures var c := Exec(h, last, pat).value;
      done + AllMatches(h, last, pat) == (done + [c.link]) + AllMatches(h, c.end, pat)
  {
  }

  /** The body of the `href` loop: push the link unless it goes back to
      zealy.io or is already there (a captured link is never empty). */
  function KeepHref(links: seq<string>, link: string): seq<string> {
    if link != "" && !IsZealy(link) && link !in links then links + [link] else links
  }

  /** One pass of the `href` loop body keeps `links` equal to the
      de-duplicated non-zealy links seen so far. */
  lemma HrefStep(links0: seq<string>, done: seq<string>, link: string, links: seq<string>)
    requires links == Dedup(links0 + DropZealy(done))
    requires link != ""
    ensures KeepHref(links, link) == Dedup(links0 + DropZealy(done + [link]))
  {
    DropZealySnoc(done, link);
    assert links0 + DropZealy(done + [link]) == (links0 + DropZealy(done)) + (if IsZealy(link) then [] else [link]);
    if !IsZealy(link) {
      DedupSnoc(links0 + DropZealy(done), link);
    } else {
      assert (links0 + DropZealy(done)) + [] == links0 + DropZealy(done);
    }
  }

  /** One `href` pattern's `exec` loop (scrape.ts:58-64): a link is pushed
      unless it goes back to zealy.io or is already in `links`. */
  method CollectHrefs(html: string, pat: Pattern, links0: seq<string>) returns (links: seq<string>)
    requires NoDup(links0)
    ensures links == Dedup(links0 + DropZealy(AllMatches(html, 0, pat)))
  {
    links := links0;
    DedupOfNoDup(links0);
    assert links0 + DropZealy([]) == links0;
    var last := 0;
    ghost var done: seq<string> := [];
    while true
      invariant last <= |html|
      invariant done + AllMatches(html, last, pat) == AllMatches(html, 0, pat)
      invariant links == Dedup(links0 + DropZealy(done))
      decreases |html| - last
    {
      var m := Exec(html, last, pat);
      if m.None? {
        break;
      }
      var link := m.value.link;
      ExecStep(html, last, pat, done);
      HrefStep(links0, done, link, links);
      links := KeepHref(links, link);
      done := done + [link];
      last := m.value.end;
    }
    assert done == AllMatches(html, 0, pat);
  }

  /** The body of a social loop: push the link unless it is already there. */
  function KeepSocial(links: seq<string>, link: string): seq<string> {
    if link != "" && link !in links then links + [link] else links
  }

  /** One pass of a social loop body keeps `links` equal to the
      de-duplicated links seen so far. */
  lemma SocialStep(links0: seq<string>, done: seq<string>, link: string, links: seq<string>)
    requires links == Dedup(links0 + done)
    requires link != ""
    ensures KeepSocial(links, link) == Dedup(links0 + (done + [link]))
  {
    AppendAssoc(links0, done, [link]);
    DedupSnoc(links0 + done, link);
  }

  /** One social pattern's `exec` loop (scrape.ts:76-82): a link is pushed
      unless it is already in `links`; zealy.io is not checked here. */
  method CollectSocial(html: string, pat: Pattern, links0: seq<string>) returns (links: seq<string>)
    requires NoDup(links0)
    ensures links == Dedup(links0 + AllMatches(html, 0, pat))
  {
    links := links0;
    DedupOfNoDup(links0);
    assert links0 + [] == links0;
    var last := 0;
    ghost var done: seq<string> := [];
    while true
      invariant last <= |html|
      invariant done + AllMatches(html, last, pat) == AllMatches(html, 0, pat)
      invariant links == Dedup(links0 + done)
      decreases |html| - last
    {
      var m := Exec(html, last, pat);
      if m.None? {
        break;
      }
      var link := m.value.link;
      ExecStep(html, last, pat, done);
      SocialStep(links0, done, link, links);
      links := KeepSocial(links, link);
      done := done + [link];
      last := m.value.end;
    }
    assert done == AllMatches(html, 0, pat);
  }

  /** The second, identical `href` pattern finds only links the first one
      already kept. */
  lemma SecondHrefPassAddsNothing(h: string)
    ensures Dedup(HrefLinks(h) + DropZealy(AllMatches(h, 0, HrefAttribute))) == HrefLinks(h)
  {
    var kept := DropZealy(AllMatches(h, 0, HrefAttribute));
    DedupAppend(kept, kept);
    DedupAbsorbs(kept, kept);
  }

  /** The loop over `linkPatterns` (scrape.ts:57-65). */
  method CollectAllHrefs(html: string) returns (links: seq<string>)
    ensures links == HrefLinks(html)
  {
    links := [];
    for n := 0 to |LinkPatterns|
      invariant links == if n == 0 then [] else HrefLinks(html)
    {
      links := CollectHrefs(html, LinkPatterns[n], links);
      if n > 0 {
        SecondHrefPassAddsNothing(html);
      } else {
        assert [] + DropZealy(AllMatches(html, 0, HrefAttribute)) == DropZealy(AllMatches(html, 0, HrefAttribute));
      }
    }
  }

  lemma MatchesOfAllSnoc(h: string, pats: seq<Pattern>, n: nat)
    requires n < |pats|
    ensures MatchesOfAll(h, pats[..n + 1]) == MatchesOfAll(h, pats[..n]) + AllMatches(h, 0, pats[n])
  {
    assert pats[..n + 1][..n] == pats[..n];
  }

  /** Adding one pattern's matches to the de-duplicated list is adding them
      to the list before de-duplication. */
  lemma SocialPassStep(h: string, pats: seq<Pattern>, n: nat, hrefPart: seq<string>)
    requires n < |pats|
    ensures Dedup(Dedup(hrefPart + MatchesOfAll(h, pats[..n])) + AllMatches(h, 0, pats[n])) ==
      Dedup(hrefPart + MatchesOfAll(h, pats[..n + 1]))
  {
    var before := MatchesOfAll(h, pats[..n]);
    var found := AllMatches(h, 0, pats[n]);
    MatchesOfAllSnoc(h, pats, n);
    AppendAssoc(hrefPart, before, found);
    DedupAppend(hrefPart + before, found);
  }

  /** The loop over `socialPatterns` (scrape.ts:75-83), after the `href` links. */
  method CollectAllSocial(html: string, pats: seq<Pattern>, hrefPart: seq<string>, links0: seq<string>)
    returns (links: seq<string>)
    requires links0 == Dedup(hrefPart)
    ensures links == Dedup(hrefPart + MatchesOfAll(html, pats))
  {
    links := links0;
    assert hrefPart + MatchesOfAll(html, pats[..0]) == hrefPart;
    for n := 0 to |pats|
      invariant links == Dedup(hrefPart + MatchesOfAll(html, pats[..n]))
    {
      links := CollectSocial(html, pats[n], links);
      SocialPassStep(html, pats, n, hrefPart);
    }
    assert pats[..|pats|] == pats;
  }

  /** The scanning part of `grabLinks` (scrape.ts:49-83). */
  method ExtractLinks(html: string) returns (links: seq<string>)
    ensures links == ScrapedLinks(html)
  {
    links := CollectAllHrefs(html);
    links := CollectAllSocial(html, SocialPatterns, DropZealy(AllMatches(html, 0, HrefAttribute)), links);
  }

  /** What the scanning promises: no duplicate; every `href` link starts
      with `http://` or `https://` (in any case), holds no quote and does not
      go back to zealy.io; all `href` links come first; the social-pattern
      links follow, each one kept whether or not it mentions zealy.io. */
  lemma ScrapedLinksSound(h: string)
    ensures NoDup(ScrapedLinks(h))
    ensures |HrefLinks(h)| <= |ScrapedLinks(h)| && ScrapedLinks(h)[..|HrefLinks(h)|] == HrefLinks(h)
    ensures forall l :: l in HrefLinks(h) ==> CaptureShape(l, HrefAttribute) && !IsZealy(l)
    ensures forall i :: |HrefLinks(h)| <= i < |ScrapedLinks(h)| ==> ScrapedLinks(h)[i] in MatchesOfAll(h, SocialPatterns)
    ensures forall l :: l in MatchesOfAll(h, SocialPatterns) ==> l in ScrapedLinks(h)
  {
    var kept := DropZealy(AllMatches(h, 0, HrefAttribute));
    DedupPrefix(kept, MatchesOfAll(h, SocialPatterns));
    AllMatchesShape(h, 0, HrefAttribute);
  }

  /** What `fetch` did for one slug: it threw, or the server answered with a
      status, its text and a body that reading could still fail on. */
  datatype Fetched =
    | FetchThrew(thrown: Thrown)
    | Responded(status: nat, statusText: string, body: BodyRead)

  datatype BodyRead = BodyThrew(thrown: Thrown) | BodyText(html: string)

  /** The message thrown for a response that is not `ok`. */
  function HttpError(status: nat, statusText: string): string {
    "HTTP " + NatToString(status) + ": " + statusText
  }

  /** `response.ok`: a status in the 2xx range. */
  predicate IsOk(status: nat) {
    200 <= status <= 299
  }

  /** The row `grabLinks` returns: its `catch` turns every failure into an
      error row, so it never throws. */
  function FetchRow(slug: string, fetched: Fetched): (row: SocialRow)
    ensures row.slug == slug && WellFormed(row)
    ensures fetched.FetchThrew? ==> row == ErrorRow(slug, Describe(fetched.thrown))
    ensures fetched.Responded? && !IsOk(fetched.status) ==>
      row == ErrorRow(slug, HttpError(fetched.status, fetched.statusText))
  {
    match fetched
    case FetchThrew(t) => ErrorRow(slug, Describe(t))
    case Responded(status, statusText, body) =>
      if !IsOk(status) then ErrorRow(slug, HttpError(status, statusText))
      else
        match body
        case BodyThrew(t) => ErrorRow(slug, Describe(t))
        case BodyText(html) =>
          ClassifySound(slug, ScrapedLinks(html));
          ClassifyFirstMatch(slug, ScrapedLinks(html));
          Classify(slug, ScrapedLinks(html))
  }

  /** `grabLinks` (scrape.ts:26-126). */
  method GrabLinks(slug: string, fetched: Fetched) returns (row: SocialRow)
    ensures row == FetchRow(slug, fetched)
  {
    match fetched {
      case FetchThrew(t) =>
        row := ErrorRow(slug, Describe(t));
      case Responded(status, statusText, body) =>
        if !IsOk(status) {
          return ErrorRow(slug, HttpError(status, statusText));
        }
        match body {
          case BodyThrew(t) =>
            row := ErrorRow(slug, Describe(t));
          case BodyText(html) =>
            var links := ExtractLinks(html);
            row := ClassifyLinks(slug, links);
        }
    }
  }

  /** The handler's loop over the slugs (scrape.ts:174-185). */
  method FetchRows(slugs: seq<string>, fetched: nat -> Fetched) returns (rows: seq<SocialRow>)
    ensures OneRowPerSlug(slugs, rows)
    ensures forall i :: 0 <= i < |slugs| ==> rows[i] == FetchRow(slugs[i], fetched(i))
  {
    rows := [];
    for i := 0 to |slugs|
      invariant RowsSoFar(FetchRow, slugs, fetched, rows, i)
    {
      var row := GrabLinks(slugs[i], fetched(i));
      RowsSoFarSnoc(FetchRow, slugs, fetched, rows, row, i);
      rows := rows + [row];
    }
  }

  /** `handler` (scrape.ts:128-203). `fetched(i)` is what `fetch` gave for
      the `i`-th slug. */
  method Handler(event: Event, fetched: nat -> Fetched) returns (resp: Response)
    ensures MethodGate(event.httpMethod).Some? ==> resp == MethodGate(event.httpMethod).value
    ensures event.httpMethod == "POST" ==>
      match event.body
      case Unreadable(message) => resp == ServerError(message)
      case Parsed(field) =>
        match CheckSlugs(field)
        case Rejected(message) => resp == BadRequest(message)
        case Accepted(slugs) =>
          resp.status == 200 && resp.body.RowsBody? &&
          OneRowPerSlug(slugs, resp.body.rows) &&
          forall i :: 0 <= i < |slugs| ==> resp.body.rows[i] == FetchRow(slugs[i], fetched(i))
  {
    var gate := MethodGate(event.httpMethod);
    if gate.Some? {
      return gate.value;
    }
    if event.body.Unreadable? {
      return ServerError(event.body.message);
    }
    var checked := CheckSlugs(event.body.slugs);
    if checked.Rejected? {
      return BadRequest(checked.message);
    }
    var rows := FetchRows(checked.slugs, fetched);
    resp := Response(200, RowsBody(rows));
  }
}
