/** browser-service/server.js: the Express service. `processSlugRailway`
    visits one community page and builds its row; the `/scrape` route checks
    the request and builds one row per slug. The page itself is not
    modelled: what each browser call returned or threw is an input. */
module Server {
  import opened Common
  import opened Unique
  import opened Links
  import opened Requests

  /** What the browser reported while `processSlugRailway` handled one slug. */
  datatype RailwayPage = RailwayPage(
    setup: Option<string>,                 // launching, opening or navigating threw this message
    firstWait: bool,                       // strategy 1 saw `[role="dialog"]` in time
    secondWait: bool,                      // strategy 2 saw it after the pause
    dialogHrefs: Attempt<seq<string>>,     // `evaluateAll` inside the dialog, raced against its timeout
    fallbackHrefs: Attempt<seq<string>>,   // the `page.evaluate` fallback
    socialHrefs: Attempt<seq<string>>)     // strategy 3's search for social links

  /** Strategies 1 and 2: whether the dialog was seen. */
  predicate DialogFound(page: RailwayPage) {
    page.firstWait || page.secondWait
  }

  /** The links the dialog stage leaves (server.js:100-142): the dialog's
      links without zealy.io ones, from `evaluateAll` or else the fallback;
      none when no dialog was seen or both calls threw. */
  function DialogLinks(page: RailwayPage): seq<string> {
    if !DialogFound(page) then []
    else
      match page.dialogHrefs
      case Got(hrefs) => DropZealy(hrefs)
      case Threw(_) =>
        match page.fallbackHrefs
        case Got(hrefs) => DropZealy(hrefs)
        case Threw(_) => []
  }

  /** The links after strategy 3 (server.js:144-160), which only runs when the
      dialog stage left none. */
  function RailwayLinks(page: RailwayPage): seq<string> {
    var links := DialogLinks(page);
    if links != [] then links
    else
      match page.socialHrefs
      case Got(hrefs) => DropZealy(hrefs)
      case Threw(_) => []
  }

  /** The row `processSlugRailway` returns. */
  function RailwayRow(slug: string, page: RailwayPage): SocialRow {
    match page.setup
    case Some(message) => ErrorRow(slug, message)
    case None => Classify(slug, Dedup(RailwayLinks(page)))
  }

  /** `processSlugRailway` (server.js:38-244) without the logging, the
      timeouts and the cleanup. */
  method ProcessSlugRailway(slug: string, page: RailwayPage) returns (row: SocialRow)
    ensures row == RailwayRow(slug, page)
  {
    if page.setup.Some? {
      return ErrorRow(slug, page.setup.value);
    }
    var links: seq<string> := [];
    var dialogFound := false;
    if page.firstWait {
      dialogFound := true;
    }
    if !dialogFound && page.secondWait {
      dialogFound := true;
    }
    if dialogFound {
      match page.dialogHrefs {
        case Got(hrefs) =>
          links := DropZealy(hrefs);
        case Threw(_) =>
          match page.fallbackHrefs {
            case Got(hrefs) =>
              links := DropZealy(hrefs);
            case Threw(_) =>
          }
      }
    }
    if |links| == 0 {
      match page.socialHrefs {
        case Got(hrefs) =>
          links := DropZealy(hrefs);
        case Threw(_) =>
      }
    }
    var uniqueLinks := Dedup(links);
    row := ClassifyLinks(slug, uniqueLinks);
  }

  /** The links that reach classification come from one of the three
      extraction calls, never link back to zealy.io and are distinct; a
      classified row keeps its slug and has no error, and only a failed
      setup gives an error row. */
  lemma RailwayRowSound(slug: string, page: RailwayPage)
    ensures forall l :: l in RailwayLinks(page) ==>
      (!IsZealy(l) &&
       ((page.dialogHrefs.Got? && l in page.dialogHrefs.value) ||
        (page.fallbackHrefs.Got? && l in page.fallbackHrefs.value) ||
        (page.socialHrefs.Got? && l in page.socialHrefs.value)))
    ensures RailwayRow(slug, page).slug == slug && WellFormed(RailwayRow(slug, page))
    ensures RailwayRow(slug, page).error.Some? <==> page.setup.Some?
    ensures forall k :: Slot(RailwayRow(slug, page), k) != "" ==> Slot(RailwayRow(slug, page), k) in RailwayLinks(page)
  {
    RailwayLinksFrom(page);
    RailwayRowShape(slug, page);
    RailwayRowSlots(slug, page);
  }

  lemma RailwayLinksFrom(page: RailwayPage)
    ensures forall l :: l in RailwayLinks(page) ==>
      (!IsZealy(l) &&
       ((page.dialogHrefs.Got? && l in page.dialogHrefs.value) ||
        (page.fallbackHrefs.Got? && l in page.fallbackHrefs.value) ||
        (page.socialHrefs.Got? && l in page.socialHrefs.value)))
  {
  }

  lemma RailwayRowShape(slug: string, page: RailwayPage)
    ensures RailwayRow(slug, page).slug == slug && WellFormed(RailwayRow(slug, page))
    ensures RailwayRow(slug, page).error.Some? <==> page.setup.Some?
  {
    ClassifyFirstMatch(slug, Dedup(RailwayLinks(page)));
  }

  lemma RailwayRowSlots(slug: string, page: RailwayPage)
    ensures forall k :: Slot(RailwayRow(slug, page), k) != "" ==> Slot(RailwayRow(slug, page), k) in RailwayLinks(page)
  {
    ClassifySound(slug, Dedup(RailwayLinks(page)));
  }

  /** The social-link search only matters when the dialog stage found no
      link: otherwise the row is the same whatever that search would return. */
  lemma SocialSearchOnlyWhenEmpty(slug: string, page: RailwayPage, other: Attempt<seq<string>>)
    requires DialogLinks(page) != []
    ensures RailwayRow(slug, page.(socialHrefs := other)) == RailwayRow(slug, page)
    ensures page.setup.None? ==> RailwayRow(slug, page) == Classify(slug, Dedup(DialogLinks(page)))
  {
    assert DialogLinks(page.(socialHrefs := other)) == DialogLinks(page);
  }

  /** With no dialog link and no social link, the row is all empty and has
      no `error` field. */
  lemma NothingFoundRow(slug: string, page: RailwayPage)
    requires page.setup.None? && DialogLinks(page) == []
    requires page.socialHrefs.Threw? || DropZealy(page.socialHrefs.value) == []
    ensures RailwayRow(slug, page) == EmptyRow(slug)
  {
    ClassifySound(slug, Dedup(RailwayLinks(page)));
  }

  /** The route's loop over the slugs (server.js:264-288). */
  method RailwayRows(slugs: seq<string>, pages: nat -> RailwayPage) returns (rows: seq<SocialRow>)
    ensures |rows| == |slugs|
    ensures forall i :: 0 <= i < |slugs| ==> rows[i] == RailwayRow(slugs[i], pages(i))
  {
    rows := [];
    for i := 0 to |slugs|
      invariant RowsSoFar(RailwayRow, slugs, pages, rows, i)
    {
      var row := ProcessSlugRailway(slugs[i], pages(i));
      RowsSoFarSnoc(RailwayRow, slugs, pages, rows, row, i);
      rows := rows + [row];
    }
  }

  lemma RailwayRowsPerSlug(slugs: seq<string>, pages: nat -> RailwayPage, rows: seq<SocialRow>)
    requires |rows| == |slugs|
    requires forall i :: 0 <= i < |slugs| ==> rows[i] == RailwayRow(slugs[i], pages(i))
    ensures OneRowPerSlug(slugs, rows)
  {
    forall i | 0 <= i < |rows|
      ensures rows[i].slug == slugs[i] && WellFormed(rows[i])
    {
      RailwayRowSound(slugs[i], pages(i));
    }
  }

  /** The `/scrape` route (server.js:247-299). The JSON middleware has
      already parsed the body, so reading `slugs` cannot throw, and
      `processSlugRailway` catches everything itself: neither `catch` of the
      route is reachable. `pages(i)` is what the browser reported for the
      `i`-th slug. */
  method Scrape(slugs: SlugsField, pages: nat -> RailwayPage) returns (resp: Response)
    ensures CheckSlugs(slugs).Rejected? ==> resp == BadRequest(CheckSlugs(slugs).message)
    ensures CheckSlugs(slugs).Accepted? ==>
      resp.status == 200 && resp.body.RowsBody? &&
      OneRowPerSlug(slugs.items, resp.body.rows) &&
      forall i :: 0 <= i < |slugs.items| ==> resp.body.rows[i] == RailwayRow(slugs.items[i], pages(i))
  {
    var checked := CheckSlugs(slugs);
    if checked.Rejected? {
      return BadRequest(checked.message);
    }
    var rows := RailwayRows(checked.slugs, pages);
    RailwayRowsPerSlug(checked.slugs, pages, rows);
    resp := Response(200, RowsBody(rows));
  }
}
