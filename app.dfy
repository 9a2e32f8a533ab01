/** src/App.tsx: the slug list `handleCollect` builds from the text box
    before it asks the scraping endpoint: split into lines, normalise each,
    drop the empty ones and keep the first occurrence of each slug. Two
    guards stop it before any request: a blank text box, and a text box
    where no line gives a slug. */
module App {
  import opened Text
  import opened Unique
  import opened Slugs

  const EnterSlugs := "Please enter some slugs or URLs"
  const NoValidSlugs := "No valid slugs found"

  /** Where `handleCollect` ends up: an alert and no request, or a request
      for these slugs. */
  datatype Collected = Alerted(message: string) | Request(slugs: seq<string>)

  /** `normalizeSlug` on every line. */
  function NormalizedLines(lines: seq<string>): (r: seq<string>)
    ensures |r| == |lines| && forall i :: 0 <= i < |lines| ==> r[i] == NormalizeSlug(lines[i])
  {
    seq(|lines|, i requires 0 <= i < |lines| => NormalizeSlug(lines[i]))
  }

  /** `arr.filter((x, index, arr) => arr.indexOf(x) === index)` over the
      first `n` elements: an element stays when no equal one comes before
      it. */
  function KeepFirstByIndex(arr: seq<string>, n: nat): (r: seq<string>)
    requires n <= |arr|
    ensures forall x :: x in r ==> x in arr
  {
    if n == 0 then []
    else
      KeepFirstByIndex(arr, n - 1) +
      (if FirstIndex(arr, arr[n - 1]) == n - 1 then [arr[n - 1]] else [])
  }

  /** One step of the filter: the `n`-th element is kept exactly when it
      does not occur earlier. */
  lemma KeepFirstStep(arr: seq<string>, n: nat)
    requires 0 < n <= |arr|
    ensures KeepFirstByIndex(arr, n) ==
      KeepFirstByIndex(arr, n - 1) + (if arr[n - 1] in arr[..n - 1] then [] else [arr[n - 1]])
  {
    var x := arr[n - 1];
    if x in arr[..n - 1] {
      var k :| 0 <= k < n - 1 && arr[..n - 1][k] == x;
      assert arr[k] == x;
      assert FirstIndex(arr, x) != n - 1;
    } else {
      assert forall j :: 0 <= j < n - 1 ==> arr[j] != x by {
        forall j | 0 <= j < n - 1 ensures arr[j] != x {
          assert arr[j] == arr[..n - 1][j];
        }
      }
      assert FirstIndex(arr, x) == n - 1;
    }
  }

  /** The `indexOf` filter is the order-preserving de-duplication. */
  lemma {:induction false} KeepFirstByIndexIsDedup(arr: seq<string>, n: nat)
    requires n <= |arr|
    ensures KeepFirstByIndex(arr, n) == Dedup(arr[..n])
  {
    if n > 0 {
      KeepFirstByIndexIsDedup(arr, n - 1);
      KeepFirstDedupStep(arr, n);
    }
  }

  lemma KeepFirstDedupStep(arr: seq<string>, n: nat)
    requires 0 < n <= |arr|
    requires KeepFirstByIndex(arr, n - 1) == Dedup(arr[..n - 1])
    ensures KeepFirstByIndex(arr, n) == Dedup(arr[..n])
  {
    KeepFirstStep(arr, n);
    PrefixSnoc(arr, n);
    DedupSnoc(arr[..n - 1], arr[n - 1]);
  }

  /** The non-empty normalised lines, in line order. */
  function NonEmptySlugs(input: string): seq<string> {
    DropEmpty(NormalizedLines(SplitOn(input, '\n')))
  }

  /** The slug list of the text box: the pipeline of App.tsx:18-22. */
  function SlugList(input: string): seq<string> {
    KeepFirstByIndex(NonEmptySlugs(input), |NonEmptySlugs(input)|)
  }

  /** Collecting a list's elements is the same as de-duplicating it. */
  lemma SlugListIsDedup(input: string)
    ensures SlugList(input) == Dedup(NonEmptySlugs(input))
  {
    var kept := NonEmptySlugs(input);
    KeepFirstByIndexIsDedup(kept, |kept|);
    assert kept[..|kept|] == kept;
  }

  /** `handleCollect` up to the request. */
  function Collect(input: string): (r: Collected)
    ensures Trim(JavaScript, input) == "" <==> r == Alerted(EnterSlugs)
    ensures r == Alerted(NoValidSlugs) <==> Trim(JavaScript, input) != "" && SlugList(input) == []
    ensures r.Request? ==> r.slugs == SlugList(input) && r.slugs != []
  {
    if Trim(JavaScript, input) == "" then Alerted(EnterSlugs)
    else
      var slugs := SlugList(input);
      if |slugs| == 0 then Alerted(NoValidSlugs) else Request(slugs)
  }

  /** Every non-empty normalised line comes from some line of the text. */
  lemma NonEmptySlugsFromLines(input: string, s: string)
    requires s in NonEmptySlugs(input)
    ensures s != "" && exists line :: line in SplitOn(input, '\n') && NormalizeSlug(line) == s
  {
    var lines := SplitOn(input, '\n');
    assert s in NormalizedLines(lines);
    var k :| 0 <= k < |lines| && NormalizedLines(lines)[k] == s;
    assert lines[k] in lines;
  }

  /** The slugs sent are distinct, and every slug some line gives is
      among them. */
  lemma SlugListDistinct(input: string)
    ensures NoDup(SlugList(input))
    ensures forall s :: s in SlugList(input) <==> s in NonEmptySlugs(input)
  {
    SlugListIsDedup(input);
  }

  /** Each slug sent is non-empty and `normalizeSlug` of some line. */
  lemma SlugListFromLines(input: string)
    ensures forall s :: s in SlugList(input) ==>
      s != "" && exists line :: line in SplitOn(input, '\n') && NormalizeSlug(line) == s
  {
    SlugListIsDedup(input);
    forall s | s in SlugList(input)
      ensures s != "" && exists line :: line in SplitOn(input, '\n') && NormalizeSlug(line) == s
    {
      NonEmptySlugsFromLines(input, s);
    }
  }

  /** The slugs keep the order in which they first appear. */
  lemma SlugListOrder(input: string)
    ensures forall i, j :: 0 <= i < j < |SlugList(input)| ==>
      FirstIndex(NonEmptySlugs(input), SlugList(input)[i]) < FirstIndex(NonEmptySlugs(input), SlugList(input)[j])
  {
    SlugListIsDedup(input);
    FirstOccurrenceOrder(NonEmptySlugs(input));
  }

  lemma FirstOccurrenceOrder(kept: seq<string>)
    ensures forall i, j :: 0 <= i < j < |Dedup(kept)| ==>
      FirstIndex(kept, Dedup(kept)[i]) < FirstIndex(kept, Dedup(kept)[j])
  {
    forall i, j | 0 <= i < j < |Dedup(kept)|
      ensures FirstIndex(kept, Dedup(kept)[i]) < FirstIndex(kept, Dedup(kept)[j])
    {
      DedupOrder(kept, i, j);
    }
  }

  /** No request is sent when every line normalises to the empty string,
      blank lines and unusable URLs alike. */
  lemma NoSlugsNoRequest(input: string)
    requires forall line :: line in SplitOn(input, '\n') ==> NormalizeSlug(line) == ""
    ensures Collect(input).Alerted?
  {
    var kept := NonEmptySlugs(input);
    if kept != [] {
      NonEmptySlugsFromLines(input, kept[0]);
    }
    SlugListIsDedup(input);
  }
}
