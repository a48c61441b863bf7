/**
 * The per-path loop of `run_test`: for every reconciled path, capture the
 * source page and the target page when they exist and record a report
 * entry. Creating the page directory and logging are outside the model.
 */
module Entries {
  import opened Wrappers
  import opened Slug
  import opened Capture
  import opened Reconcile
  import Config

  /** One page of the report: an image reference or a failure flag per side. */
  datatype Entry = Entry(
    slug: string,
    path: Path,
    source: Option<string>,
    target: Option<string>,
    sourceFailed: bool,
    targetFailed: bool)

  const SourceFile: string := "source.png"
  const TargetFile: string := "target.png"

  /** `m.get(p)`. */
  function Get(m: map<Path, Url>, p: Path): (r: Option<Url>)
    ensures r.Some? <==> p in m
    ensures r.Some? ==> r.value == m[p]
  {
    if p in m then Some(m[p]) else None
  }

  /** `os.path.join(REPORT_DIR, slug, file)`: where a screenshot is written. */
  function OutputPath(slug: string, file: string): string
  {
    Config.ReportDir + "/" + slug + "/" + file
  }

  /** `f"{slug}/{file}"`: the image reference written into the report, relative to it. */
  function ImageRef(slug: string, file: string): string
  {
    slug + "/" + file
  }

  /**
   * `url and take_fullpage_screenshot(url, output_path)`, read as a truth
   * value: no capture and `false` for a missing or empty URL, otherwise the
   * capture's result. `None` when the capture raised an exception other
   * than `WebDriverException`, which nothing in `run_test` catches.
   */
  function SideSuccess(url: Option<Url>, outputPath: string, browser: Browser, retryCount: nat): Option<bool>
  {
    match url
    case None => Some(false)
    case Some(u) =>
      if u == "" then Some(false)
      else match CaptureSpec(browser, u, outputPath, retryCount)
        case Raised => None
        case Returned(ok) => Some(ok)
  }

  /** The entry recorded for one side's outcome. */
  function Reference(slug: string, file: string, ok: bool): Option<string>
  {
    if ok then Some(ImageRef(slug, file)) else None
  }

  /** The entry `run_test` appends for `path`, or `None` when a capture raised. */
  function EntryFor(path: Path, sourceMap: map<Path, Url>, targetMap: map<Path, Url>,
                    browser: Browser, retryCount: nat): Option<Entry>
  {
    var slug := PathSlug(path);
    match SideSuccess(Get(sourceMap, path), OutputPath(slug, SourceFile), browser, retryCount)
    case None => None
    case Some(sourceOk) =>
      match SideSuccess(Get(targetMap, path), OutputPath(slug, TargetFile), browser, retryCount)
      case None => None
      case Some(targetOk) =>
        Some(Entry(slug, path, Reference(slug, SourceFile, sourceOk), Reference(slug, TargetFile, targetOk),
                   !sourceOk, !targetOk))
  }

  /** A side's screenshot was taken: its URL is present and non-empty, and the capture returned `True`. */
  predicate Captured(m: map<Path, Url>, path: Path, file: string, browser: Browser, retryCount: nat)
  {
    path in m && m[path] != ""
    && CaptureSpec(browser, m[path], OutputPath(PathSlug(path), file), retryCount) == Returned(true)
  }

  /** A side's capture raised: its URL is present and non-empty, and an exception escaped the capture. */
  predicate CaptureRaised(m: map<Path, Url>, path: Path, file: string, browser: Browser, retryCount: nat)
  {
    path in m && m[path] != ""
    && CaptureSpec(browser, m[path], OutputPath(PathSlug(path), file), retryCount) == Raised
  }

  /** What one side contributes: nothing when its capture raised, else whether it was captured. */
  lemma SideSuccessMeaning(m: map<Path, Url>, path: Path, file: string, browser: Browser, retryCount: nat)
    ensures var s := SideSuccess(Get(m, path), OutputPath(PathSlug(path), file), browser, retryCount);
            && (s.None? <==> CaptureRaised(m, path, file, browser, retryCount))
            && (s == Some(true) <==> Captured(m, path, file, browser, retryCount))
  {
  }

  /**
   * What an entry records. It carries its path and that path's slug; a side
   * has an image reference exactly when its failure flag is clear, and that
   * happens exactly when the side's screenshot was taken; a side whose URL is
   * missing is always failed. No entry exists exactly when some capture raised.
   */
  lemma EntryForRecords(path: Path, sourceMap: map<Path, Url>, targetMap: map<Path, Url>,
                        browser: Browser, retryCount: nat)
    ensures EntryFor(path, sourceMap, targetMap, browser, retryCount).None? <==>
              CaptureRaised(sourceMap, path, SourceFile, browser, retryCount)
              || CaptureRaised(targetMap, path, TargetFile, browser, retryCount)
    ensures EntryFor(path, sourceMap, targetMap, browser, retryCount).Some? ==>
              var e := EntryFor(path, sourceMap, targetMap, browser, retryCount).value;
              && e.path == path && e.slug == PathSlug(path)
              && (e.source.Some? <==> !e.sourceFailed) && (e.target.Some? <==> !e.targetFailed)
              && (!e.sourceFailed <==> Captured(sourceMap, path, SourceFile, browser, retryCount))
              && (!e.targetFailed <==> Captured(targetMap, path, TargetFile, browser, retryCount))
              && (e.source.Some? ==> e.source.value == ImageRef(e.slug, SourceFile))
              && (e.target.Some? ==> e.target.value == ImageRef(e.slug, TargetFile))
              && (path !in sourceMap ==> e.source.None? && e.sourceFailed)
              && (path !in targetMap ==> e.target.None? && e.targetFailed)
  {
    SideSuccessMeaning(sourceMap, path, SourceFile, browser, retryCount);
    SideSuccessMeaning(targetMap, path, TargetFile, browser, retryCount);
  }

  /** Some capture for the page at `path` raised an exception other than `WebDriverException`. */
  predicate PageRaised(path: Path, sourceMap: map<Path, Url>, targetMap: map<Path, Url>,
                       browser: Browser, retryCount: nat)
  {
    CaptureRaised(sourceMap, path, SourceFile, browser, retryCount)
    || CaptureRaised(targetMap, path, TargetFile, browser, retryCount)
  }

  /** Entries that are the entries of `paths` carry those paths, in order, with consistent flags. */
  lemma EntriesFollowPaths(paths: seq<Path>, entries: seq<Entry>, sourceMap: map<Path, Url>,
                           targetMap: map<Path, Url>, browser: Browser, retryCount: nat)
    requires |entries| == |paths|
    requires forall k :: 0 <= k < |paths| ==>
               EntryFor(paths[k], sourceMap, targetMap, browser, retryCount) == Some(entries[k])
    ensures forall k :: 0 <= k < |paths| ==>
              && entries[k].path == paths[k]
              && entries[k].slug == PathSlug(paths[k])
              && (entries[k].source.Some? <==> !entries[k].sourceFailed)
              && (entries[k].target.Some? <==> !entries[k].targetFailed)
  {
    forall k | 0 <= k < |paths|
      ensures entries[k].path == paths[k] && entries[k].slug == PathSlug(paths[k])
              && (entries[k].source.Some? <==> !entries[k].sourceFailed)
              && (entries[k].target.Some? <==> !entries[k].targetFailed)
    {
      EntryForRecords(paths[k], sourceMap, targetMap, browser, retryCount);
    }
  }

  /** `url and take_fullpage_screenshot(url, output_path)`: `None` when the capture raised. */
  method CaptureSide(url: Option<Url>, outputPath: string, browser: Browser, retryCount: nat)
    returns (success: Option<bool>)
    ensures success == SideSuccess(url, outputPath, browser, retryCount)
    ensures success.None? ==> url.Some? && url.value != ""
  {
    if url.None? || url.value == "" {
      return Some(false);
    }
    var outcome, _ := TakeFullpageScreenshot(browser, url.value, outputPath, retryCount);
    if outcome.Raised? {
      return None;
    }
    return Some(outcome.ok);
  }

  /** One iteration of the loop in `run_test`: capture both sides of `path` and build its entry. */
  method AssembleEntry(path: Path, sourceMap: map<Path, Url>, targetMap: map<Path, Url>,
                       browser: Browser, retryCount: nat)
    returns (entry: Option<Entry>)
    ensures entry == EntryFor(path, sourceMap, targetMap, browser, retryCount)
  {
    var slug := PathSlug(path);
    var sourceSuccess := CaptureSide(Get(sourceMap, path), OutputPath(slug, SourceFile), browser, retryCount);
    if sourceSuccess.None? {
      return None;
    }
    var targetSuccess := CaptureSide(Get(targetMap, path), OutputPath(slug, TargetFile), browser, retryCount);
    if targetSuccess.None? {
      return None;
    }
    return Some(Entry(
      slug, path,
      Reference(slug, SourceFile, sourceSuccess.value), Reference(slug, TargetFile, targetSuccess.value),
      !sourceSuccess.value, !targetSuccess.value));
  }

  /** The per-path step of the loop: the entry of a path, or `None` when one of its captures raised. */
  function EntryOf(sourceMap: map<Path, Url>, targetMap: map<Path, Url>, browser: Browser, retryCount: nat)
    : Path -> Option<Entry>
  {
    path => EntryFor(path, sourceMap, targetMap, browser, retryCount)
  }

  /**
   * What a loop that appends `entryOf(p)` for each `p` of `paths` in turn,
   * and stops at the first `None`, collects.
   */
  function Collect(paths: seq<Path>, entryOf: Path -> Option<Entry>): Option<seq<Entry>>
  {
    if paths == [] then Some([])
    else match Collect(paths[..|paths| - 1], entryOf)
      case None => None
      case Some(init) =>
        match entryOf(paths[|paths| - 1])
        case None => None
        case Some(e) => Some(init + [e])
  }

  /** The loop collects entries exactly when every path has one. */
  lemma {:induction false} CollectExists(paths: seq<Path>, entryOf: Path -> Option<Entry>)
    ensures Collect(paths, entryOf).Some? <==> forall k :: 0 <= k < |paths| ==> entryOf(paths[k]).Some?
  {
    if paths != [] {
      var init := paths[..|paths| - 1];
      CollectExists(init, entryOf);
      assert forall k :: 0 <= k < |init| ==> init[k] == paths[k];
    }
  }

  /** The collected entries correspond one to one with the paths, in order: entry `k` is that of path `k`. */
  lemma {:induction false} CollectMatches(paths: seq<Path>, entryOf: Path -> Option<Entry>)
    requires Collect(paths, entryOf).Some?
    ensures |Collect(paths, entryOf).value| == |paths|
    ensures forall k :: 0 <= k < |paths| ==> entryOf(paths[k]) == Some(Collect(paths, entryOf).value[k])
  {
    if paths != [] {
      var init := paths[..|paths| - 1];
      CollectMatches(init, entryOf);
      assert forall k :: 0 <= k < |init| ==> init[k] == paths[k];
    }
  }

  /** Once the loop has stopped at a `None`, the later paths do not matter. */
  lemma {:induction false} CollectStops(paths: seq<Path>, n: nat, entryOf: Path -> Option<Entry>)
    requires n <= |paths| && Collect(paths[..n], entryOf).None?
    ensures Collect(paths, entryOf).None?
    decreases |paths| - n
  {
    if n < |paths| {
      assert paths[..n + 1][..n] == paths[..n];
      CollectStops(paths, n + 1, entryOf);
    } else {
      assert paths[..n] == paths;
    }
  }

  /** The run has entries for all its paths exactly when no capture of any of them raised. */
  lemma CollectedIffNoneRaised(paths: seq<Path>, sourceMap: map<Path, Url>, targetMap: map<Path, Url>,
                               browser: Browser, retryCount: nat)
    ensures Collect(paths, EntryOf(sourceMap, targetMap, browser, retryCount)).Some? <==>
              forall k :: 0 <= k < |paths| ==> !PageRaised(paths[k], sourceMap, targetMap, browser, retryCount)
  {
    CollectExists(paths, EntryOf(sourceMap, targetMap, browser, retryCount));
    forall k | 0 <= k < |paths|
      ensures EntryFor(paths[k], sourceMap, targetMap, browser, retryCount).Some?
              <==> !PageRaised(paths[k], sourceMap, targetMap, browser, retryCount)
    {
      EntryForRecords(paths[k], sourceMap, targetMap, browser, retryCount);
    }
  }

  /** The loop of `run_test` that fills `report_entries`; `None` when a capture raised. */
  method AssembleEntries(paths: seq<Path>, sourceMap: map<Path, Url>, targetMap: map<Path, Url>,
                         browser: Browser, retryCount: nat)
    returns (entries: Option<seq<Entry>>)
    ensures entries == Collect(paths, EntryOf(sourceMap, targetMap, browser, retryCount))
    ensures entries.Some? ==> |entries.value| == |paths| && forall k :: 0 <= k < |paths| ==>
              && entries.value[k].path == paths[k]
              && entries.value[k].slug == PathSlug(paths[k])
              && (entries.value[k].source.Some? <==> !entries.value[k].sourceFailed)
              && (entries.value[k].target.Some? <==> !entries.value[k].targetFailed)
  {
    ghost var entryOf := EntryOf(sourceMap, targetMap, browser, retryCount);
    var reportEntries: seq<Entry> := [];
    for i := 0 to |paths|
      invariant Collect(paths[..i], entryOf) == Some(reportEntries)
    {
      assert paths[..i + 1][..i] == paths[..i];
      var entry := AssembleEntry(paths[i], sourceMap, targetMap, browser, retryCount);
      assert entry == entryOf(paths[i]);
      if entry.None? {
        CollectStops(paths, i + 1, entryOf);
        return None;
      }
      reportEntries := reportEntries + [entry.value];
    }
    assert paths[..|paths|] == paths;
    entries := Some(reportEntries);
    CollectMatches(paths, entryOf);
    EntriesFollowPaths(paths, reportEntries, sourceMap, targetMap, browser, retryCount);
  }
}
