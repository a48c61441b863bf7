/**
 * `run_test`: fetch both sitemaps, reconcile their paths, capture every page
 * on both sites, and build the report.
 */
module Regression {
  import opened Wrappers
  import opened Sitemap
  import opened Reconcile
  import opened Capture
  import opened Entries
  import opened Report
  import opened Slug
  import Config

  /** The paths `run_test` compares, from what the two sitemap fetches produced. */
  function PlannedPaths(sourceFetch: FetchOutcome, targetFetch: FetchOutcome, pathOf: Url -> Path): seq<Path>
  {
    ReconciledPaths(SitemapUrls(sourceFetch), WithFallback(SitemapUrls(targetFetch)), pathOf)
  }

  /**
   * Block `k` of the report built from the collected entries: the heading of
   * path `k`, the checkboxes, the source side's `<img>` line when its
   * screenshot was taken and its "not available" line otherwise, the same
   * for the target side, and the closing tag.
   */
  lemma ReportShowsCaptures(paths: seq<Path>, sourceMap: map<Path, Url>, targetMap: map<Path, Url>,
                            browser: Browser, retryCount: nat)
    requires Collect(paths, EntryOf(sourceMap, targetMap, browser, retryCount)).Some?
    ensures var lines := ReportLines(Collect(paths, EntryOf(sourceMap, targetMap, browser, retryCount)).value);
            |lines| == 5 + 5 * |paths| && forall k :: 0 <= k < |paths| ==>
              && lines[4 + 5 * k] == PageOpen(paths[k])
              && lines[4 + 5 * k + 1] == Checkboxes
              && lines[4 + 5 * k + 2] ==
                   (if Captured(sourceMap, paths[k], SourceFile, browser, retryCount)
                    then ImageLine(ImageRef(PathSlug(paths[k]), SourceFile), "Source") else SourceMissing)
              && lines[4 + 5 * k + 3] ==
                   (if Captured(targetMap, paths[k], TargetFile, browser, retryCount)
                    then ImageLine(ImageRef(PathSlug(paths[k]), TargetFile), "Target") else TargetMissing)
              && lines[4 + 5 * k + 4] == PageClose
  {
    var entryOf := EntryOf(sourceMap, targetMap, browser, retryCount);
    var entries := Collect(paths, entryOf).value;
    var lines := ReportLines(entries);
    CollectMatches(paths, entryOf);
    ReportLayout(entries);
    forall k | 0 <= k < |paths|
      ensures && lines[4 + 5 * k] == PageOpen(paths[k])
              && lines[4 + 5 * k + 1] == Checkboxes
              && lines[4 + 5 * k + 2] ==
                   (if Captured(sourceMap, paths[k], SourceFile, browser, retryCount)
                    then ImageLine(ImageRef(PathSlug(paths[k]), SourceFile), "Source") else SourceMissing)
              && lines[4 + 5 * k + 3] ==
                   (if Captured(targetMap, paths[k], TargetFile, browser, retryCount)
                    then ImageLine(ImageRef(PathSlug(paths[k]), TargetFile), "Target") else TargetMissing)
              && lines[4 + 5 * k + 4] == PageClose
    {
      var e := entries[k];
      assert entryOf(paths[k]) == EntryFor(paths[k], sourceMap, targetMap, browser, retryCount);
      EntryForRecords(paths[k], sourceMap, targetMap, browser, retryCount);
      SideLineShown(e);
      assert lines[4 + 5 * k + 0] == EntryLines(e)[0];
      assert lines[4 + 5 * k + 1] == EntryLines(e)[1];
      assert lines[4 + 5 * k + 2] == EntryLines(e)[2];
      assert lines[4 + 5 * k + 3] == EntryLines(e)[3];
      assert lines[4 + 5 * k + 4] == EntryLines(e)[4];
    }
  }

  /**
   * `run_test()`: the lines of the report, or `None` when a capture raised
   * an exception other than `WebDriverException`; that exception ends the
   * run before the report is generated.
   */
  method RunTest(sourceFetch: FetchOutcome, targetFetch: FetchOutcome, pathOf: Url -> Path, browser: Browser)
    returns (report: Option<seq<string>>)
    ensures var paths := PlannedPaths(sourceFetch, targetFetch, pathOf);
            report.Some? ==>
              && |report.value| == 5 + 5 * |paths|
              && report.value[..4] == Header
              && report.value[|report.value| - 1] == Footer
              && forall k :: 0 <= k < |paths| ==> report.value[4 + 5 * k] == PageOpen(paths[k])
    ensures var paths := PlannedPaths(sourceFetch, targetFetch, pathOf);
            var sourceMap := PathMap(SitemapUrls(sourceFetch), pathOf);
            var targetMap := PathMap(WithFallback(SitemapUrls(targetFetch)), pathOf);
            report.Some? <==>
              forall k :: 0 <= k < |paths| ==> !PageRaised(paths[k], sourceMap, targetMap, browser, Config.RetryCount)
    ensures var paths := PlannedPaths(sourceFetch, targetFetch, pathOf);
            var sourceMap := PathMap(SitemapUrls(sourceFetch), pathOf);
            var targetMap := PathMap(WithFallback(SitemapUrls(targetFetch)), pathOf);
            var entries := Collect(paths, EntryOf(sourceMap, targetMap, browser, Config.RetryCount));
            report.Some? ==> entries.Some? && report.value == ReportLines(entries.value)
    ensures var paths := PlannedPaths(sourceFetch, targetFetch, pathOf);
            var sourceMap := PathMap(SitemapUrls(sourceFetch), pathOf);
            var targetMap := PathMap(WithFallback(SitemapUrls(targetFetch)), pathOf);
            report.Some? ==> forall k :: 0 <= k < |paths| ==>
              && report.value[4 + 5 * k + 2] ==
                   (if Captured(sourceMap, paths[k], SourceFile, browser, Config.RetryCount)
                    then ImageLine(ImageRef(PathSlug(paths[k]), SourceFile), "Source") else SourceMissing)
              && report.value[4 + 5 * k + 3] ==
                   (if Captured(targetMap, paths[k], TargetFile, browser, Config.RetryCount)
                    then ImageLine(ImageRef(PathSlug(paths[k]), TargetFile), "Target") else TargetMissing)
  {
    var sourceUrls := SitemapUrls(sourceFetch);
    // Homepage fallback when the staging sitemap gave no URLs.
    var targetUrls := WithFallback(SitemapUrls(targetFetch));

    var sourceMap := PathMap(sourceUrls, pathOf);
    var targetMap := PathMap(targetUrls, pathOf);
    var allPaths := ReconciledPaths(sourceUrls, targetUrls, pathOf);

    var entries := AssembleEntries(allPaths, sourceMap, targetMap, browser, Config.RetryCount);
    CollectedIffNoneRaised(allPaths, sourceMap, targetMap, browser, Config.RetryCount);
    if entries.None? {
      return None;
    }
    var html := GenerateHtmlReport(entries.value);
    ReportLayout(entries.value);
    ReportShowsCaptures(allPaths, sourceMap, targetMap, browser, Config.RetryCount);
    return Some(html);
  }
}
