/** deployment/netlify/functions/scrape.js: the Netlify function that drives
    a headless browser. One browser serves every slug; what each page visit
    returned or threw is an input. */
module DeploymentScrape {
  import opened Common
  import opened Unique
  import opened Links
  import opened Requests

  /** One `grabLinks` page visit: navigating, waiting for the dialog or
      reading its links threw, or the dialog's hrefs came back. */
  datatype Visit = VisitThrew(thrown: Thrown) | DialogHrefs(hrefs: seq<string>)

  /** The headless browser: launching it (or opening its page) threw, or it
      ran and closing it at the end threw or not. */
  datatype Browser = LaunchFailed(thrown: Thrown) | Launched(closeFailure: Option<Thrown>)

  /** The row `grabLinks` returns: its `catch` turns any failure into an
      error row. */
  function VisitRow(slug: string, visit: Visit): (row: SocialRow)
    ensures row.slug == slug && WellFormed(row)
    ensures visit.VisitThrew? ==> row == ErrorRow(slug, Describe(visit.thrown))
    ensures visit.DialogHrefs? ==> row.error.None?
  {
    match visit
    case VisitThrew(t) => ErrorRow(slug, Describe(t))
    case DialogHrefs(hrefs) => GrabbedRow(slug, hrefs)
  }

  /** A visit that reached the dialog fills each slot with the first href
      eligible for it that is not a zealy.io link. */
  lemma VisitRowFirstMatch(slug: string, visit: Visit)
    requires visit.DialogHrefs?
    ensures forall k :: Slot(VisitRow(slug, visit), k) == FirstOfKind(DropZealy(visit.hrefs), k)
    ensures forall k :: Slot(VisitRow(slug, visit), k) != "" ==>
      Slot(VisitRow(slug, visit), k) in visit.hrefs && !IsZealy(Slot(VisitRow(slug, visit), k))
  {
    GrabbedRowFirstMatch(slug, visit.hrefs);
  }

  /** `grabLinks` (scrape.js:9-77): filter, seen-set loop, classification. */
  method GrabLinks(slug: string, visit: Visit) returns (row: SocialRow)
    ensures row == VisitRow(slug, visit)
  {
    match visit {
      case VisitThrew(t) =>
        row := ErrorRow(slug, Describe(t));
      case DialogHrefs(hrefs) =>
        var externalLinks := DropZealy(hrefs);
        var links := DedupKeepFirst(externalLinks);
        row := ClassifyLinks(slug, links);
    }
  }

  /** The handler's loop over the slugs (scrape.js:134-137). */
  method VisitRows(slugs: seq<string>, visit: nat -> Visit) returns (rows: seq<SocialRow>)
    ensures OneRowPerSlug(slugs, rows)
    ensures forall i :: 0 <= i < |slugs| ==> rows[i] == VisitRow(slugs[i], visit(i))
  {
    rows := [];
    for i := 0 to |slugs|
      invariant RowsSoFar(VisitRow, slugs, visit, rows, i)
    {
      var row := GrabLinks(slugs[i], visit(i));
      RowsSoFarSnoc(VisitRow, slugs, visit, rows, row, i);
      rows := rows + [row];
    }
  }

  /** `handler` (scrape.js:79-158). `visit(i)` is what the page gave for the
      `i`-th slug. */
  method Handler(event: Event, browser: Browser, visit: nat -> Visit) returns (resp: Response)
    ensures MethodGate(event.httpMethod).Some? ==> resp == MethodGate(event.httpMethod).value
    ensures event.httpMethod == "POST" ==>
      match event.body
      case Unreadable(message) => resp == ServerError(message)
      case Parsed(field) =>
        match CheckSlugs(field)
        case Rejected(message) => resp == BadRequest(message)
        case Accepted(slugs) =>
          match browser
          case LaunchFailed(t) => resp == ServerError(Describe(t))
          case Launched(Some(t)) => resp == ServerError(Describe(t))
          case Launched(None) =>
            resp.status == 200 && resp.body.RowsBody? &&
            OneRowPerSlug(slugs, resp.body.rows) &&
            forall i :: 0 <= i < |slugs| ==> resp.body.rows[i] == VisitRow(slugs[i], visit(i))
  {
    var gate := MethodGate(event.httpMethod);
    if gate.Some? {
      return gate.value;
    }
    if event.body.Unreadable? {
      return ServerError(event.body.message);
    }
    var checked := CheckSlugs(event.body.slugs);
    if checked.Rejected? {
      return BadRequest(checked.message);
    }
    var slugs := checked.slugs;
    if browser.LaunchFailed? {
      return ServerError(Describe(browser.thrown));
    }
    var rows := VisitRows(slugs, visit);
    // `browser.close()` in the `finally` block: a failure there replaces the result
    if browser.closeFailure.Some? {
      return ServerError(Describe(browser.closeFailure.value));
    }
    resp := Response(200, RowsBody(rows));
  }
}
