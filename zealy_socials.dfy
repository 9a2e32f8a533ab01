/** zealy_socials.py: the command-line scraper. `main` reads one slug or URL
    per line, keeps the distinct non-empty slugs, and emits one row per slug
    from `grab_links` (or an error row when it raises). The browser calls
    are not modelled: each slug's visit is an input, either the hrefs the
    dialog held or the message of what was raised. */
module ZealySocials {
  import opened Common
  import opened Text
  import opened Unique
  import opened Links
  import opened Slugs

  /** `grab_links` from the point where the dialog's hrefs are in hand:
      drop zealy.io links, keep first occurrences with a `seen` set, then
      classify (zealy_socials.py:33-57). */
  method GrabLinks(slug: string, hrefs: seq<string>) returns (row: SocialRow)
    ensures row == GrabbedRow(slug, hrefs)
  {
    var kept := DropZealy(hrefs);
    var links := DedupKeepFirst(kept);
    row := ClassifyLinks(slug, links);
  }

  /** `slug_from` on every line. */
  function SlugsOf(lines: seq<string>): (r: seq<string>)
    ensures |r| == |lines|
  {
    MapLines(SlugFrom, lines)
  }

  lemma SlugsOfSnoc(lines: seq<string>, i: nat)
    requires i < |lines|
    ensures SlugsOf(lines[..i + 1]) == SlugsOf(lines[..i]) + [SlugFrom(lines[i])]
  {
    MapLinesSnoc(SlugFrom, lines, i);
  }

  /** The non-empty slugs of the lines, in line order, before de-duplication. */
  function RawSlugs(text: string): seq<string> {
    DropEmpty(SlugsOf(SplitLines(text)))
  }

  /** The slug list `main` scrapes: `list(dict.fromkeys(slugs))` of the raw list. */
  function InputSlugs(text: string): seq<string> {
    Dedup(RawSlugs(text))
  }

  /** The loop of `main` that reads the lines, then the de-duplication
      (zealy_socials.py:60-64). */
  method CollectSlugs(text: string) returns (slugs: seq<string>)
    ensures slugs == InputSlugs(text)
  {
    var lines := SplitLines(text);
    slugs := [];
    for i := 0 to |lines|
      invariant slugs == DropEmpty(SlugsOf(lines[..i]))
    {
      var s := SlugFrom(lines[i]);
      SlugsOfSnoc(lines, i);
      DropEmptySnoc(SlugsOf(lines[..i]), s);
      if s != "" {
        slugs := slugs + [s];
      }
    }
    assert lines[..|lines|] == lines;
    slugs := Dedup(slugs);
  }

  /** The slug list has no empty string and no duplicate, every slug is
      `slug_from` of some line, and the slugs keep the order in which they
      first appear. */
  lemma InputSlugsSound(text: string)
    ensures NoDup(InputSlugs(text))
    ensures forall s :: s in InputSlugs(text) ==>
      s != "" && exists line :: line in SplitLines(text) && SlugFrom(line) == s
    ensures forall i, j :: 0 <= i < j < |InputSlugs(text)| ==>
      FirstIndex(RawSlugs(text), InputSlugs(text)[i]) < FirstIndex(RawSlugs(text), InputSlugs(text)[j])
  {
    var lines := SplitLines(text);
    forall s | s in InputSlugs(text)
      ensures s != "" && exists line :: line in lines && SlugFrom(line) == s
    {
      assert s in SlugsOf(lines);
      var k :| 0 <= k < |lines| && SlugsOf(lines)[k] == s;
      assert lines[k] in lines;
    }
    forall i, j | 0 <= i < j < |InputSlugs(text)|
      ensures FirstIndex(RawSlugs(text), InputSlugs(text)[i]) < FirstIndex(RawSlugs(text), InputSlugs(text)[j])
    {
      DedupOrder(RawSlugs(text), i, j);
    }
  }

  /** The row `main` appends for one slug: `grab_links`' record, or the
      `except` row holding `str(e)`. */
  function RowFor(slug: string, visit: Attempt<seq<string>>): (row: SocialRow)
    ensures row.slug == slug && WellFormed(row)
    ensures visit.Threw? ==> row == ErrorRow(slug, visit.message)
  {
    match visit
    case Got(hrefs) => GrabbedRow(slug, hrefs)
    case Threw(m) => ErrorRow(slug, m)
  }

  /** One pass of the scraping loop: `grab_links`, or the `except` row. */
  method ScrapeSlug(slug: string, visit: Attempt<seq<string>>) returns (row: SocialRow)
    ensures row == RowFor(slug, visit)
  {
    match visit {
      case Got(hrefs) =>
        row := GrabLinks(slug, hrefs);
      case Threw(m) =>
        row := ErrorRow(slug, m);
    }
  }

  /** The scraping loop of `main` (zealy_socials.py:66-76); `visit(i)` is
      what the page gave for the `i`-th slug. */
  method ScrapeRows(slugs: seq<string>, visit: nat -> Attempt<seq<string>>) returns (rows: seq<SocialRow>)
    ensures OneRowPerSlug(slugs, rows)
    ensures forall i :: 0 <= i < |slugs| ==> rows[i] == RowFor(slugs[i], visit(i))
  {
    rows := [];
    for i := 0 to |slugs|
      invariant RowsSoFar(RowFor, slugs, visit, rows, i)
    {
      var row := ScrapeSlug(slugs[i], visit(i));
      RowsSoFarSnoc(RowFor, slugs, visit, rows, row, i);
      rows := rows + [row];
    }
  }

  /** `main` without the file I/O: the input text in, the rows that go to
      the CSV out. */
  method Run(text: string, visit: nat -> Attempt<seq<string>>) returns (rows: seq<SocialRow>)
    ensures OneRowPerSlug(InputSlugs(text), rows)
    ensures forall i :: 0 <= i < |rows| ==> rows[i] == RowFor(InputSlugs(text)[i], visit(i))
  {
    var slugs := CollectSlugs(text);
    rows := ScrapeRows(slugs, visit);
  }
}
