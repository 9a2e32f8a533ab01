/** The link pipeline shared by every scraper entry point: drop links back to
    zealy.io, de-duplicate keeping first occurrences, and classify the links
    into the fixed record `{slug, website, discord, twitter, telegram, error?}`
    (src/types.ts). */
module Links {
  import opened Common
  import opened Text
  import opened Unique

  /** One output row (`SocialRow` in src/types.ts); `error` is absent (`None`)
      on every successfully classified row. */
  datatype SocialRow = SocialRow(
    slug: string,
    website: string,
    discord: string,
    twitter: string,
    telegram: string,
    error: Option<string>)

  /** The four slots a link can be classified into. */
  datatype Kind = Website | Discord | Twitter | Telegram

  /** The `SOCIAL_MAP` patterns, tested on the lower-cased link. They are
      unanchored, so each is a substring test: `discord\.(gg|com)`,
      `(x\.com|twitter\.com)` and `(t\.me|telegram\.)`. */
  predicate IsDiscord(lower: string) {
    Contains(lower, "discord.gg") || Contains(lower, "discord.com")
  }

  predicate IsTwitter(lower: string) {
    Contains(lower, "x.com") || Contains(lower, "twitter.com")
  }

  predicate IsTelegram(lower: string) {
    Contains(lower, "t.me") || Contains(lower, "telegram.")
  }

  /** Whether the `SOCIAL_MAP` entry for `k` matches; no pattern is kept for `Website`. */
  predicate Matches(k: Kind, lower: string) {
    match k
    case Discord => IsDiscord(lower)
    case Twitter => IsTwitter(lower)
    case Telegram => IsTelegram(lower)
    case Website => false
  }

  /** The order in which `SOCIAL_MAP` lists its entries, which is the order
      the classification loop tries them in. */
  const SocialKinds: seq<Kind> := [Discord, Twitter, Telegram]

  /** The slot a link competes for: the first social pattern it matches, or
      `Website` when it matches none. */
  function KindOf(link: string): Kind {
    var lower := Lower(link);
    if IsDiscord(lower) then Discord
    else if IsTwitter(lower) then Twitter
    else if IsTelegram(lower) then Telegram
    else Website
  }

  /** `"zealy.io" in h.lower()`: a link back to the platform itself. */
  predicate IsZealy(link: string) {
    Contains(Lower(link), "zealy.io")
  }

  /** `[h for h in hrefs if "zealy.io" not in h.lower()]`: keeps the other
      links in their order. */
  function DropZealy(hrefs: seq<string>): (r: seq<string>)
    ensures forall l :: l in r <==> l in hrefs && !IsZealy(l)
    ensures |r| <= |hrefs|
  {
    if hrefs == [] then []
    else (if IsZealy(hrefs[0]) then [] else [hrefs[0]]) + DropZealy(hrefs[1..])
  }

  /** `DropZealy` unfolded at the end, as a loop that appends meets it. */
  lemma {:induction false} DropZealySnoc(hrefs: seq<string>, h: string)
    ensures DropZealy(hrefs + [h]) == DropZealy(hrefs) + (if IsZealy(h) then [] else [h])
  {
    if hrefs != [] {
      DropZealySnoc(hrefs[1..], h);
      DropZealySnocStep(hrefs, h);
    } else {
      DropZealyOne(h);
    }
  }

  lemma DropZealyOne(h: string)
    ensures DropZealy([] + [h]) == DropZealy([]) + (if IsZealy(h) then [] else [h])
  {
    assert [] + [h] == [h];
    assert DropZealy([h]) == (if IsZealy(h) then [] else [h]) + DropZealy([]);
  }

  lemma DropZealySnocStep(hrefs: seq<string>, h: string)
    requires hrefs != []
    requires DropZealy(hrefs[1..] + [h]) == DropZealy(hrefs[1..]) + (if IsZealy(h) then [] else [h])
    ensures DropZealy(hrefs + [h]) == DropZealy(hrefs) + (if IsZealy(h) then [] else [h])
  {
    ConsSnoc(hrefs, h);
    AppendAssoc(if IsZealy(hrefs[0]) then [] else [hrefs[0]], DropZealy(hrefs[1..]), if IsZealy(h) then [] else [h]);
  }

  function Slot(row: SocialRow, k: Kind): string {
    match k
    case Website => row.website
    case Discord => row.discord
    case Twitter => row.twitter
    case Telegram => row.telegram
  }

  function WithSlot(row: SocialRow, k: Kind, link: string): (r: SocialRow)
    ensures Slot(r, k) == link
    ensures forall other :: other != k ==> Slot(r, other) == Slot(row, other)
    ensures r.slug == row.slug && r.error == row.error
  {
    match k
    case Website => row.(website := link)
    case Discord => row.(discord := link)
    case Twitter => row.(twitter := link)
    case Telegram => row.(telegram := link)
  }

  /** The row the classification starts from: every slot empty, no error. */
  function EmptyRow(slug: string): SocialRow {
    SocialRow(slug, "", "", "", "", None)
  }

  /** The row every `except`/`catch` builds: four empty slots and the message. */
  function ErrorRow(slug: string, message: string): SocialRow {
    SocialRow(slug, "", "", "", "", Some(message))
  }

  /** A row keeps the error convention: a row with an error has every slot empty. */
  predicate WellFormed(row: SocialRow) {
    row.error.Some? ==> forall k :: Slot(row, k) == ""
  }

  /** The batch rule every entry point keeps: one row per slug, in slug
      order, each row carrying its slug and keeping the error convention. */
  predicate OneRowPerSlug(slugs: seq<string>, rows: seq<SocialRow>) {
    |rows| == |slugs| && forall i :: 0 <= i < |rows| ==> rows[i].slug == slugs[i] && WellFormed(rows[i])
  }

  /** The first `n` rows are `row(slugs[j], inputs(j))`: what a batch loop
      has built after `n` passes, `inputs(j)` being what the outside world
      gave for the `j`-th slug. */
  predicate RowsSoFar<V>(row: (string, V) -> SocialRow, slugs: seq<string>, inputs: nat -> V,
                         rows: seq<SocialRow>, n: nat) {
    n <= |slugs| && |rows| == n && forall j :: 0 <= j < n ==> rows[j] == row(slugs[j], inputs(j))
  }

  /** One more pass of a batch loop appends the next slug's row. */
  lemma RowsSoFarSnoc<V>(row: (string, V) -> SocialRow, slugs: seq<string>, inputs: nat -> V,
                         rows: seq<SocialRow>, next: SocialRow, n: nat)
    requires RowsSoFar(row, slugs, inputs, rows, n) && n < |slugs|
    requires next == row(slugs[n], inputs(n))
    ensures RowsSoFar(row, slugs, inputs, rows + [next], n + 1)
  {
    forall j | 0 <= j < n + 1
      ensures (rows + [next])[j] == row(slugs[j], inputs(j))
    {
      if j < n {
        assert (rows + [next])[j] == rows[j];
      }
    }
  }

  /** One iteration of the classification loop: the link fills its slot only
      if that slot is still empty (a falsy `""` counts as empty). */
  function Step(row: SocialRow, link: string): SocialRow {
    var k := KindOf(link);
    if Slot(row, k) == "" then WithSlot(row, k, link) else row
  }

  /** The classification loop as a left fold over the links. */
  function Fold(row: SocialRow, links: seq<string>): (r: SocialRow)
    decreases |links|
    ensures r.slug == row.slug && r.error == row.error
  {
    if links == [] then row else Step(Fold(row, links[..|links| - 1]), links[|links| - 1])
  }

  /** The record the classification loop builds for `slug` from `links`. */
  function Classify(slug: string, links: seq<string>): (r: SocialRow)
    ensures r.slug == slug && r.error == None
  {
    Fold(EmptyRow(slug), links)
  }

  /** A link that can fill slot `k`: of that kind, and not the empty string
      (an empty slot is never "filled" by `""`). */
  predicate Eligible(link: string, k: Kind) {
    link != "" && KindOf(link) == k
  }

  /** The independent reference for a slot: the first link eligible for it,
      or `""` when there is none. */
  function FirstOfKind(links: seq<string>, k: Kind): (r: string)
    ensures r == "" <==> forall i :: 0 <= i < |links| ==> !Eligible(links[i], k)
    ensures r != "" ==> r in links && Eligible(r, k)
  {
    if links == [] then ""
    else if Eligible(links[0], k) then links[0]
    else
      var r := FirstOfKind(links[1..], k);
      assert forall i :: 1 <= i < |links| ==> links[i] == links[1..][i - 1];
      r
  }

  /** `FirstOfKind` picks the eligible link with the smallest position. */
  lemma {:induction false} FirstOfKindIsFirst(links: seq<string>, k: Kind, i: nat)
    requires i < |links| && Eligible(links[i], k)
    requires forall j :: 0 <= j < i ==> !Eligible(links[j], k)
    ensures FirstOfKind(links, k) == links[i]
  {
    if i > 0 {
      FirstOfKindIsFirst(links[1..], k, i - 1);
    }
  }

  lemma {:induction false} FirstOfKindSnoc(links: seq<string>, x: string, k: Kind)
    ensures FirstOfKind(links + [x], k) ==
      if FirstOfKind(links, k) != "" then FirstOfKind(links, k)
      else if Eligible(x, k) then x else ""
  {
    if links != [] {
      assert (links + [x])[1..] == links[1..] + [x];
      FirstOfKindSnoc(links[1..], x, k);
    }
  }

  /** What one step does to one slot: a filled slot keeps its link, an empty
      slot takes the link if the link is eligible for it. */
  lemma StepSlot(row: SocialRow, link: string, k: Kind)
    ensures Slot(Step(row, link), k) ==
      if Slot(row, k) != "" then Slot(row, k)
      else if Eligible(link, k) then link else ""
    ensures Step(row, link).slug == row.slug && Step(row, link).error == row.error
  {
  }

  /** The classification rule: every slot holds the first link eligible for
      it (discord before twitter before telegram per link, and `website` only
      for a non-empty link that matches no social pattern), and no error. */
  lemma {:induction false} ClassifyFirstMatch(slug: string, links: seq<string>)
    ensures forall k :: Slot(Classify(slug, links), k) == FirstOfKind(links, k)
    ensures Classify(slug, links).slug == slug && Classify(slug, links).error == None
  {
    if links != [] {
      ClassifyFirstMatch(slug, links[..|links| - 1]);
      ClassifyFirstMatchStep(slug, links);
    }
  }

  /** What `ClassifyFirstMatch` states about `links`. */
  predicate ClassifiedFirst(slug: string, links: seq<string>) {
    (forall k :: Slot(Classify(slug, links), k) == FirstOfKind(links, k)) &&
    Classify(slug, links).slug == slug && Classify(slug, links).error == None
  }

  lemma ClassifyFirstMatchStep(slug: string, links: seq<string>)
    requires links != []
    requires ClassifiedFirst(slug, links[..|links| - 1])
    ensures ClassifiedFirst(slug, links)
  {
    var p, x := links[..|links| - 1], links[|links| - 1];
    LastSplit(links);
    forall k ensures Slot(Classify(slug, links), k) == FirstOfKind(links, k) {
      StepSlot(Classify(slug, p), x, k);
      FirstOfKindSnoc(p, x, k);
    }
  }

  /** A filled slot is never overwritten by a later link. */
  lemma {:induction false} NeverOverwritten(slug: string, links: seq<string>, n: nat, k: Kind)
    requires n <= |links|
    requires Slot(Classify(slug, links[..n]), k) != ""
    ensures Slot(Classify(slug, links), k) == Slot(Classify(slug, links[..n]), k)
  {
    if n < |links| {
      var p := links[..|links| - 1];
      assert p[..n] == links[..n];
      NeverOverwritten(slug, p, n, k);
      assert links[..|links|] == links;
      StepSlot(Classify(slug, p), links[|links| - 1], k);
    } else {
      assert links[..n] == links;
    }
  }

  /** Every filled slot holds one of the links, of that slot's kind: a link
      matching a social pattern never becomes the website, and no link lands
      in a slot whose pattern it fails. No links give four empty slots. */
  lemma ClassifySound(slug: string, links: seq<string>)
    ensures forall k :: Slot(Classify(slug, links), k) != "" ==>
      Slot(Classify(slug, links), k) in links && KindOf(Slot(Classify(slug, links), k)) == k
    ensures links == [] ==> Classify(slug, links) == EmptyRow(slug)
    ensures WellFormed(Classify(slug, links))
  {
    ClassifyFirstMatch(slug, links);
  }

  /** De-duplicating first does not change which link is first for a slot. */
  lemma {:induction false} FirstOfKindDedup(links: seq<string>, k: Kind)
    ensures FirstOfKind(Dedup(links), k) == FirstOfKind(links, k)
  {
    if links != [] {
      FirstOfKindDedup(links[..|links| - 1], k);
      FirstOfKindDedupStep(links, k);
    }
  }

  lemma FirstOfKindDedupStep(links: seq<string>, k: Kind)
    requires links != []
    requires FirstOfKind(Dedup(links[..|links| - 1]), k) == FirstOfKind(links[..|links| - 1], k)
    ensures FirstOfKind(Dedup(links), k) == FirstOfKind(links, k)
  {
    var p, x := links[..|links| - 1], links[|links| - 1];
    LastSplit(links);
    DedupSnoc(p, x);
    FirstOfKindSnoc(p, x, k);
    FirstOfKindSnoc(Dedup(p), x, k);
  }

  /** The row a scraper builds from the hrefs of one dialog: filter, then
      de-duplicate, then classify. */
  function GrabbedRow(slug: string, hrefs: seq<string>): SocialRow {
    Classify(slug, Dedup(DropZealy(hrefs)))
  }

  /** What the pipeline promises about its row: no error, each slot holds
      the first href (in page order) that is not a zealy.io link and is
      eligible for that slot, so no zealy.io link is ever classified. */
  lemma GrabbedRowFirstMatch(slug: string, hrefs: seq<string>)
    ensures GrabbedRow(slug, hrefs).slug == slug && GrabbedRow(slug, hrefs).error == None
    ensures forall k :: Slot(GrabbedRow(slug, hrefs), k) == FirstOfKind(DropZealy(hrefs), k)
    ensures forall k :: Slot(GrabbedRow(slug, hrefs), k) != "" ==>
      Slot(GrabbedRow(slug, hrefs), k) in hrefs && !IsZealy(Slot(GrabbedRow(slug, hrefs), k))
  {
    var kept := DropZealy(hrefs);
    ClassifyFirstMatch(slug, Dedup(kept));
    forall k ensures Slot(GrabbedRow(slug, hrefs), k) == FirstOfKind(kept, k) {
      FirstOfKindDedup(kept, k);
    }
  }

  /** The `seen`-set loop: keeps the first occurrence of each link, in order. */
  method DedupKeepFirst(hrefs: seq<string>) returns (links: seq<string>)
    ensures links == Dedup(hrefs)
  {
    var seen: set<string> := {};
    links := [];
    for i := 0 to |hrefs|
      invariant links == Dedup(hrefs[..i])
      invariant forall x :: x in seen <==> x in links
    {
      var h := hrefs[i];
      assert hrefs[..i + 1] == hrefs[..i] + [h];
      DedupSnoc(hrefs[..i], h);
      if h !in seen {
        links := links + [h];
        seen := seen + {h};
      }
    }
    assert hrefs[..|hrefs|] == hrefs;
  }

  /** The classification loop: for each link, try the `SOCIAL_MAP` entries in
      order, fill the first matching slot if it is empty and stop trying; a
      link that matched nothing fills `website` if that is empty. */
  method ClassifyLinks(slug: string, links: seq<string>) returns (row: SocialRow)
    ensures row == Classify(slug, links)
  {
    row := EmptyRow(slug);
    for i := 0 to |links|
      invariant row == Classify(slug, links[..i])
    {
      var link := links[i];
      var lower := Lower(link);
      var matched := false;
      ghost var before := row;
      var j := 0;
      while j < |SocialKinds|
        invariant 0 <= j <= |SocialKinds|
        invariant row == before && !matched
        invariant forall m :: 0 <= m < j ==> !Matches(SocialKinds[m], lower)
      {
        var key := SocialKinds[j];
        if Matches(key, lower) {
          assert KindOf(link) == key by {
            if j >= 1 { assert !Matches(SocialKinds[0], lower); }
            if j >= 2 { assert !Matches(SocialKinds[1], lower); }
          }
          if Slot(row, key) == "" {
            row := WithSlot(row, key, link);
          }
          matched := true;
          assert row == Step(before, link);
          break;
        }
        j := j + 1;
      }
      if !matched {
        assert KindOf(link) == Website by {
          assert !Matches(SocialKinds[0], lower) && !Matches(SocialKinds[1], lower) && !Matches(SocialKinds[2], lower);
        }
        if row.website == "" {
          row := row.(website := link);
        }
      }
      assert row == Step(before, link);
      assert links[..i + 1] == links[..i] + [link];
      assert (links[..i] + [link])[..i] == links[..i];
    }
    assert links[..|links|] == links;
  }

  /** The matching is the literal, lenient substring test: a link holding
      `x.com` anywhere, in any case (`box.com`, `https://dropbox.com/...`),
      and no discord domain competes for the twitter slot. */
  lemma LenientTwitterMatch(l: string, i: nat)
    requires i + 5 <= |l| && Lower(l[i..i + 5]) == "x.com"
    requires !Contains(Lower(l), "discord.gg") && !Contains(Lower(l), "discord.com")
    ensures KindOf(l) == Twitter
  {
    var lower := Lower(l);
    assert lower[i..][..5] == Lower(l[i..i + 5]);
    ContainsAt(lower, "x.com", i);
  }

}
