/** browser-service/test-improved.js: the improved `grabLinks`, which tries
    three strategies to find the community dialog before classifying links.
    What each browser call returned or threw is an input. */
module TestImproved {
  import opened Common
  import opened Unique
  import opened Links

  /** The dialog-like selectors strategy 2 tries, in this order. */
  const DialogSelectors: seq<string> := [
    "[role=\"dialog\"]",
    ".modal",
    "[class*=\"modal\"]",
    "[class*=\"dialog\"]",
    "[data-testid*=\"modal\"]",
    "[data-testid*=\"dialog\"]"
  ]

  /** The element the links are read from: the `[role="dialog"]` element
      strategy 1 waited for, or the first match of a strategy-2 selector. */
  datatype Modal = RoleDialog | FirstOf(selector: string)

  /** What the browser reported while `grabLinks` handled one slug. */
  datatype ImprovedPage = ImprovedPage(
    setup: Option<string>,                  // `goto` or the initial pause threw this message
    firstWait: bool,                        // strategy 1 saw `[role="dialog"]` in time
    count: string -> Attempt<nat>,          // `page.locator(selector).count()`
    pageHrefs: Attempt<seq<string>>,        // strategy 3: every `http` link on the page
    modalHrefs: Modal -> Attempt<seq<string>>) // the `http` links inside a modal

  const NoDialogOrLinks := "No dialog or external links found on page"

  /** Strategy 2 from position `i` on: the first selector whose count is
      positive; a `count` call that throws ends the strategy with nothing
      found. */
  function FirstCounted(count: string -> Attempt<nat>, i: nat): (r: Option<nat>)
    decreases |DialogSelectors| - i
    ensures r.Some? ==> i <= r.value < |DialogSelectors|
    ensures r.Some? ==> count(DialogSelectors[r.value]).Got? && count(DialogSelectors[r.value]).value > 0
    ensures r.Some? ==> forall j :: i <= j < r.value ==> count(DialogSelectors[j]) == Got(0)
    ensures r.None? ==>
      (forall j :: i <= j < |DialogSelectors| ==> count(DialogSelectors[j]) == Got(0)) ||
      (exists j :: i <= j < |DialogSelectors| && count(DialogSelectors[j]).Threw? &&
         forall m :: i <= m < j ==> count(DialogSelectors[m]) == Got(0))
  {
    if i >= |DialogSelectors| then None
    else
      match count(DialogSelectors[i])
      case Threw(_) => None
      case Got(c) => if c > 0 then Some(i) else FirstCounted(count, i + 1)
  }

  /** The strategy-2 loop (test-improved.js:64-73), with a throwing `count`
      leaving the loop as the surrounding `catch` does. */
  method SelectDialog(count: string -> Attempt<nat>) returns (found: Option<nat>)
    ensures found == FirstCounted(count, 0)
  {
    found := None;
    var i := 0;
    while i < |DialogSelectors|
      invariant 0 <= i <= |DialogSelectors|
      invariant FirstCounted(count, i) == FirstCounted(count, 0)
    {
      var selector := DialogSelectors[i];
      match count(selector) {
        case Threw(_) =>
          return;
        case Got(c) =>
          if c > 0 {
            found := Some(i);
            return;
          }
      }
      i := i + 1;
    }
  }

  /** The modal strategies 1 and 2 settle on, if any. */
  function ModalOf(page: ImprovedPage): Option<Modal> {
    if page.firstWait then Some(RoleDialog)
    else
      match FirstCounted(page.count, 0)
      case Some(i) => Some(FirstOf(DialogSelectors[i]))
      case None => None
  }

  /** The row `grabLinks` returns. */
  function ImprovedRow(slug: string, page: ImprovedPage): (row: SocialRow)
    ensures page.setup.Some? ==> row == ErrorRow(slug, page.setup.value)
  {
    if page.setup.Some? then ErrorRow(slug, page.setup.value)
    else
      var modal := ModalOf(page);
      if modal.None? && page.pageHrefs.Got? && page.pageHrefs.value != [] then
        GrabbedRow(slug, page.pageHrefs.value)
      else if modal.Some? then
        match page.modalHrefs(modal.value)
        case Got(hrefs) => GrabbedRow(slug, hrefs)
        case Threw(m) => ErrorRow(slug, m)
      else ErrorRow(slug, NoDialogOrLinks)
  }

  /** `grabLinks` (test-improved.js:26-214) without the logging and the
      timeouts. Strategy 3 and the modal branch each run the seen-set loop
      and the classification loop; both call the same two methods here, as
      the two copies in the source are the same code. */
  method GrabLinks(slug: string, page: ImprovedPage) returns (row: SocialRow)
    ensures row == ImprovedRow(slug, page)
  {
    if page.setup.Some? {
      return ErrorRow(slug, page.setup.value);
    }
    var modal: Option<Modal> := None;
    var dialogFound := false;
    if page.firstWait {
      modal := Some(RoleDialog);
      dialogFound := true;
    }
    if !dialogFound {
      var found := SelectDialog(page.count);
      if found.Some? {
        modal := Some(FirstOf(DialogSelectors[found.value]));
        dialogFound := true;
      }
    }
    if !dialogFound {
      match page.pageHrefs {
        case Got(allLinks) =>
          if |allLinks| > 0 {
            var links := DedupKeepFirst(DropZealy(allLinks));
            row := ClassifyLinks(slug, links);
            return;
          }
        case Threw(_) =>
      }
    }
    if dialogFound && modal.Some? {
      match page.modalHrefs(modal.value) {
        case Got(hrefs) =>
          var links := DedupKeepFirst(DropZealy(hrefs));
          row := ClassifyLinks(slug, links);
        case Threw(m) =>
          row := ErrorRow(slug, m);
      }
      return;
    }
    row := ErrorRow(slug, NoDialogOrLinks);
  }

  /** Every row keeps its slug and the error convention. */
  lemma ImprovedRowWellFormed(slug: string, page: ImprovedPage)
    ensures ImprovedRow(slug, page).slug == slug && WellFormed(ImprovedRow(slug, page))
  {
    if page.pageHrefs.Got? {
      GrabbedRowFirstMatch(slug, page.pageHrefs.value);
    }
    var modal := ModalOf(page);
    if modal.Some? && page.modalHrefs(modal.value).Got? {
      GrabbedRowFirstMatch(slug, page.modalHrefs(modal.value).value);
    }
  }

  /** Strategy 3 runs only when no dialog was found; then any `http` link on
      the page gives a classified row without error, all empty when every
      link went back to zealy.io. */
  lemma PageLinksClassified(slug: string, page: ImprovedPage)
    requires page.setup.None? && ModalOf(page).None?
    requires page.pageHrefs.Got? && page.pageHrefs.value != []
    ensures ImprovedRow(slug, page) == GrabbedRow(slug, page.pageHrefs.value)
    ensures ImprovedRow(slug, page).error.None?
    ensures (forall l :: l in page.pageHrefs.value ==> IsZealy(l)) ==> ImprovedRow(slug, page) == EmptyRow(slug)
  {
    var hrefs := page.pageHrefs.value;
    GrabbedRowFirstMatch(slug, hrefs);
    if forall l :: l in hrefs ==> IsZealy(l) {
      var kept := DropZealy(hrefs);
      assert forall i :: 0 <= i < |kept| ==> kept[i] in kept;
      assert kept == [];
      ClassifySound(slug, Dedup(DropZealy(hrefs)));
    }
  }

  /** The "no dialog" error row comes exactly from a page where neither
      strategy found a dialog and strategy 3 saw no `http` link (or its call
      threw), provided no browser call threw that very message. */
  lemma NoDialogRowExactly(slug: string, page: ImprovedPage)
    requires page.setup.None?
    requires forall m: Modal :: page.modalHrefs(m) != Threw(NoDialogOrLinks)
    ensures ImprovedRow(slug, page).error == Some(NoDialogOrLinks) <==>
      ModalOf(page).None? && (page.pageHrefs.Threw? || page.pageHrefs.value == [])
  {
    ImprovedRowWellFormed(slug, page);
    if page.pageHrefs.Got? {
      GrabbedRowFirstMatch(slug, page.pageHrefs.value);
    }
    var modal := ModalOf(page);
    if modal.Some? && page.modalHrefs(modal.value).Got? {
      GrabbedRowFirstMatch(slug, page.modalHrefs(modal.value).value);
    }
  }
}
