# Visual regression report: a verified model

This project models the core of `pythonregression.py`, a script that compares a live website with its staging copy:

1. It reads both sites' page sitemaps.
2. It keys each site's URLs by their URL path.
3. It takes the sorted union of the two path sets.
4. For every path, it takes a full-page screenshot on each site where the page exists, with a bounded retry on browser errors.
5. It records one report entry per path.
6. It renders an HTML report that shows both screenshots side by side, or a "not available" marker for a missing side.

The model is written in Dafny, one module per part of the script:

| module | file | models |
|---|---|---|
| `Config` | config.dfy | the configuration constants (`SOURCE_SITE`, `TARGET_SITE`, `REPORT_DIR`, `RETRY_COUNT`, …) |
| `Strings` | strings.dfy | `str.strip`, `str.replace` on one character, `str.isspace` |
| `Order` | order.dfy | Python's ordering of `str`, and `sorted(set(...))` |
| `Slug` | slug.dfy | `get_path_slug` |
| `Sitemap` | sitemap.dfy | `get_sitemap_urls` after the fetch and the parse |
| `Reconcile` | reconcile.dfy | the homepage fallback, the two path maps, and the sorted union of their keys |
| `Capture` | capture.dfy | the retry loop of `take_fullpage_screenshot` |
| `Entries` | entries.dfy | the per-path loop of `run_test` that builds `report_entries` |
| `Report` | report.dfy | the lines that `generate_html_report` builds |
| `Regression` | regression.dfy | `run_test` as a whole |

The browser and the network are inputs to the model:

- **Sitemap fetch.** A `FetchOutcome` is either a failed fetch or the texts of the `<loc>` elements.
- **`urlparse(u).path`.** This is a function parameter, `pathOf`.
- **Browser.** A `Browser` function gives the outcome of attempt *n* of capturing a URL into an output path. The outcome is one of: success, `WebDriverException`, or another exception.

Each loop of the modelled core is a Dafny method with loop invariants:

- the retry loop;
- the per-path loop;
- the report loop.

Each of these methods is proved equal to a recursive specification function. The properties are then proved about those functions.

Three behaviours of the code are worth knowing when reading the model:

- **Exceptions other than `WebDriverException`.** Apart from the cookie-banner step, whose exceptions lines 104-105 of pythonregression.py swallow, `take_fullpage_screenshot` catches only `WebDriverException` (line 129), and `run_test` catches nothing. So any other exception that escapes an attempt ends `run_test` before the report is written. The model returns `None` from `RunTest` in that case.
- **Slugs are not unique per path.** For example:
  - `/a/b` and `/a_b` share `a_b`;
  - `/` and `/home` share `home`.

  Two such paths write their screenshots into the same directory (`Slug.SlugCollidesOnUnderscore`, `Slug.SlugCollidesOnHome`).
- **When the slug is `home`.** The slug is `home` when the path is empty or only slashes, and also when the stripped path is `home` itself (`Slug.SlugIsHome`).

## Model

| member | source | states |
|---|---|---|
| Strings.Strip | pythonregression.py:87 | `path.strip('/')`: the result is no longer than the input, is empty exactly when every character is stripped, and otherwise starts and ends with a kept character |
| Strings.StripIsSlice | pythonregression.py:87 | the stripped string is a contiguous slice of the input, and everything before and after that slice is stripped |
| Strings.ReplaceChar | pythonregression.py:87 | `replace('/', '_')` keeps the length, turns every `/` into `_`, and keeps every other character |
| Strings.IsPythonSpace | pythonregression.py:76 | the characters that the argument-less `strip()` removes: exactly the code points for which Python's `str.isspace()` holds |
| Slug.PathSlug | pythonregression.py:86-87 | a slug is never empty and contains no `/`, so it is a single directory name |
| Slug.SlugFallback | pythonregression.py:87 | the `or 'home'` fallback is taken exactly when the path is empty or consists only of slashes |
| Slug.SlugIsHome | pythonregression.py:86-87 | the slug is `home` exactly when the path is all slashes or its stripped form is `home` |
| Slug.SlugOfSlashFree | pythonregression.py:86-87 | a non-empty string without slashes is its own slug |
| Slug.SlugIdempotent | pythonregression.py:86-87 | taking the slug of a slug changes nothing |
| Slug.SlugOfNestedPath | pythonregression.py:86-87 | the slug of `/a/b/` is `a_b` |
| Slug.SlugOfRoot | pythonregression.py:86-87 | the slugs of `` and `/` are `home` |
| Slug.SlugCollidesOnUnderscore | pythonregression.py:86-87 | `/a/b` and `/a_b` get the same slug `a_b` |
| Slug.SlugCollidesOnHome | pythonregression.py:86-87 | `/home` gets the slug `home`, the same as the root path |
| Sitemap.SitemapUrls | pythonregression.py:70-83 | a failed fetch gives no URLs; otherwise there is one URL per `<loc>` element |
| Sitemap.SitemapUrlsInOrder | pythonregression.py:70-83 | the result is empty exactly when the fetch failed or there is no `<loc>`; otherwise URL *i* is the whitespace-stripped text of `<loc>` *i*, and it is empty exactly when that text is all whitespace |
| Order.Less | pythonregression.py:152 | Python's `<` on `str`, which `sorted` uses: the first differing code point decides, and a proper prefix sorts first |
| Order.LessIrreflexive | pythonregression.py:152 | no string sorts before itself |
| Order.LessTransitive | pythonregression.py:152 | the string order is transitive |
| Order.LessTotal | pythonregression.py:152 | any two distinct strings are ordered one way or the other |
| Order.SortedUnique | pythonregression.py:152 | `sorted(set(xs))` is strictly increasing and holds exactly the values of `xs` |
| Order.SortedUniqueIsSortedSet | pythonregression.py:152 | `sorted(set(xs))` equals every strictly increasing sequence that holds exactly the values of `xs` |
| Order.SortedListingUnique | pythonregression.py:152 | two strictly increasing sequences with the same elements are equal, so a sorted set listing is unique |
| Reconcile.WithFallback | pythonregression.py:146-148 | an empty target list becomes a non-empty one; a non-empty list is kept unchanged |
| Reconcile.PathMap | pythonregression.py:150-151 | the keys of the path map are exactly the paths of the URLs, and each key maps to a listed URL with that path |
| Reconcile.PathMapLastWins | pythonregression.py:150-151 | when several URLs share a path, the last of them is kept |
| Reconcile.Paths | pythonregression.py:150-152 | the paths of the URLs, one per URL, holding exactly the paths that occur |
| Reconcile.ReconciledPaths | pythonregression.py:152 | `all_paths` is strictly increasing and holds exactly the keys of the source map and of the target map |
| Reconcile.ReconciledPathsIsSortedUnion | pythonregression.py:152 | `all_paths` is equal to any strictly increasing listing of the union of the two key sets |
| Reconcile.FallbackKeepsHomepage | pythonregression.py:146-152 | with the fallback, the target map is exactly `{"/": TARGET_SITE + "/"}`, and `/` is among the compared paths |
| Reconcile.ReconciledPathHasPage | pythonregression.py:150-152 | every compared path is the path of a URL of at least one site |
| Regression.PlannedPaths | pythonregression.py:142-152 | the paths `run_test` compares: the reconciled paths of the source sitemap's URLs and of the target sitemap's URLs after the homepage fallback |
| ReconcileScenario.ScenarioReconciled | pythonregression.py:142-152 | source `/`, `/about` and target `/about`, `/contact` reconcile to `["/", "/about", "/contact"]`: `/` is missing on the target, `/contact` is missing on the source, and `/about` is on both |
| Capture.CaptureFrom | pythonregression.py:92-134 | the retry semantics from attempt `from` on: `True` on the first success, the exception escapes on any other exception, the next attempt after a `WebDriverException`, and `False` once attempt `RETRY_COUNT` is passed (characterised by `Capture.CaptureSpecDecided`) |
| Capture.CaptureSpec | pythonregression.py:90-134 | the outcome of `take_fullpage_screenshot(url, output_path)`: the retry semantics from attempt 1 |
| Capture.CaptureSpecDecided | pythonregression.py:90-134 | the call returns `False` exactly when all `RETRY_COUNT` attempts raised `WebDriverException`; it returns `True` (or raises) exactly when the first attempt that does not raise `WebDriverException` succeeds (or raises another exception) |
| Capture.DecidedShifts | pythonregression.py:92-131 | after a `WebDriverException`, the outcome is decided by the remaining attempts |
| Capture.TakeFullpageScreenshot | pythonregression.py:90-134 | the loop's outcome is that of the retry specification; at most `RETRY_COUNT` attempts run, all but the last raised `WebDriverException`, and the last attempt's own result is the outcome |
| Entries.OutputPath | pythonregression.py:158-162 | where a screenshot is written: `REPORT_DIR/slug/source.png` or `REPORT_DIR/slug/target.png` |
| Entries.ImageRef | pythonregression.py:175-176 | the reference the report uses for a screenshot, relative to the report: `slug/source.png` or `slug/target.png` |
| Entries.Reference | pythonregression.py:175-176 | a side's reference: its image reference when the side succeeded, `None` otherwise |
| Entries.SideSuccess | pythonregression.py:169-170 | `url and take_fullpage_screenshot(url, output_path)` as a truth value: `False` without a capture for a missing or empty URL, the capture's result otherwise, and no value when the capture raised (characterised by `Entries.SideSuccessMeaning`) |
| Entries.EntryFor | pythonregression.py:157-179 | the dict appended for one path, or none when a capture raised; the source is captured before the target (characterised by `Entries.EntryForRecords`) |
| Entries.Get | pythonregression.py:164-165 | `m.get(p)` is present exactly when `p` is a key, and then holds `m[p]` |
| Entries.SideSuccessMeaning | pythonregression.py:169-170 | a side's result is missing exactly when its capture raised, and is `True` exactly when its URL is present and non-empty and the capture returned `True` |
| Entries.EntryForRecords | pythonregression.py:156-179 | the entry carries its path and its slug; each side has an image reference exactly when its failure flag is clear, which happens exactly when the screenshot was taken; a side with no URL is failed; no entry exists exactly when a capture raised |
| Entries.EntriesFollowPaths | pythonregression.py:156-179 | entries built one per path carry those paths and their slugs, in order, with consistent flags |
| Entries.CaptureSide | pythonregression.py:169-170 | `url and take_fullpage_screenshot(...)` agrees with the side-result specification; it can raise only when a non-empty URL was present |
| Entries.AssembleEntry | pythonregression.py:157-179 | one iteration of the loop produces the specified entry for its path |
| Entries.Collect | pythonregression.py:154-179 | what the per-path loop collects: the entries of the paths in order, or none once a capture raised (characterised by `Entries.CollectExists`, `Entries.CollectMatches` and `Entries.CollectStops`) |
| Entries.CollectExists | pythonregression.py:156-179 | the loop yields entries exactly when every path has one |
| Entries.CollectMatches | pythonregression.py:156-179 | the collected entries correspond one to one with the paths, in order |
| Entries.CollectStops | pythonregression.py:156-179 | once a capture has raised, the later paths do not change the outcome |
| Entries.CollectedIffNoneRaised | pythonregression.py:156-181 | the loop completes exactly when no capture for any path raised |
| Entries.AssembleEntries | pythonregression.py:154-179 | the loop yields the specified entries; when it completes there is one entry per path, in order, with the path's slug and consistent flags |
| Report.EntryLines | pythonregression.py:196-210 | each entry contributes exactly five lines |
| Report.Body | pythonregression.py:196-210 | the body has five lines per entry |
| Report.BodyStep | pythonregression.py:196-210 | adding an entry adds its block at the end of the body |
| Report.BodyAt | pythonregression.py:196-210 | line *j* of block *i* of the body is line *j* of entry *i*'s block |
| Report.SideLine | pythonregression.py:200-208 | a side's line: the `<img>` line for a truthy reference, the side's "not available" line otherwise (characterised by `Report.SideLineShown`) |
| Report.ReportLines | pythonregression.py:188-212 | the lines of the document: the header, each entry's block in order, and the footer (characterised by `Report.ReportLayout`) |
| Report.ReportLayout | pythonregression.py:186-212 | the document is the four header lines, then five lines per entry in entry order, then the footer: 5 + 5·n lines in all |
| Report.SideLineShown | pythonregression.py:200-208 | a side's line is an `<img>` pointing at its reference exactly when the reference is truthy, and that side's "not available" line otherwise |
| Report.AssembledEntryShown | pythonregression.py:172-208 | for entries built by `run_test`, a side shows its image exactly when its failure flag is clear |
| Report.AppendEntry | pythonregression.py:197-210 | one iteration of the report loop appends exactly the entry's five lines |
| Report.GenerateHtmlReport | pythonregression.py:186-212 | the lines built are those of the document layout; block *i* opens with entry *i*'s path |
| Report.PageOpenAt | pythonregression.py:197 | block *i* of the document opens with the heading of entry *i*'s path |
| Regression.ReportShowsCaptures | pythonregression.py:156-210 | block *k* of the report of the collected entries is: the heading of path *k*, the checkboxes, the source `<img>` for `slug/source.png` when that screenshot was taken (its "not available" line otherwise), the same for the target, and the closing tag |
| Regression.RunTest | pythonregression.py:139-212 | a report exists exactly when no capture for any compared path raised; it is the document of the collected entries: 5 + 5·n lines for the n reconciled paths, the header first, the footer last, page *k*'s heading at line 4 + 5k, and at lines 4 + 5k + 2 and 4 + 5k + 3 the `<img>` of each side whose screenshot was taken, or its "not available" line (also when the page has no URL on that side) |

## Left out

- Browser setup, window handling, the Chrome options and `driver.quit()` are not modelled. The browser is the `Browser` input.
- The work inside one attempt is not modelled: navigation, cookie-banner dismissal, lazy-load scrolling, the CDP capture, base64 decoding and the file write. Only how the attempt ends is modelled.
- All `time.sleep` calls and the backoff are not modelled. Time does not affect any outcome.
- Logging is not modelled. This includes the `[attempt/RETRY_COUNT]` lines, except that `TakeFullpageScreenshot` returns the attempt count.
- The HTTP request, TLS, the status check and the XML parse in `get_sitemap_urls` are replaced by the `FetchOutcome` input.
- `urlparse` is a function parameter, `pathOf`, because URL parsing is a library call. `pathOf` is taken to be total: it returns a path for every URL. Only `FallbackKeepsHomepage` and the reconciliation scenario rely on what it returns, and they state that in their `requires`.
- `os.makedirs`, `os.path.join` on the real file system, and the write of `index.html` with `'\n'.join` are not modelled. The report is its list of lines. The error branch of the `index.html` write is also left out, because it only logs.
- The top-level `try/except` in `__main__` is not modelled. It only logs. `RunTest` returns `None` where an exception other than `WebDriverException` escapes a capture.
- `urlparse` can raise `ValueError` (lines 150-151), and `os.makedirs` can raise `OSError` (line 159). Either one ends `run_test` without a report. The model's `pathOf` is total and creating directories always succeeds, so `RunTest` does not model these failures.
- `Capture.TakeFullpageScreenshot`: the `Browser` input gives the same outcome to two calls with the same URL, output path and attempt number. This loses nothing within one run, because no such triple repeats:
  - `pathOf` is a function, so a URL fixes its path, and the compared paths are distinct;
  - the two sides of a page write different files (`source.png` and `target.png`);
  - the attempts of one capture have distinct numbers.

  Any pattern of attempt outcomes in a run can therefore be given as a `Browser`.
- `Config.Headless` and the sitemap URL constants are recorded. They influence only the browser and the fetch, which are inputs.
- The second script, `# SELENIUM VERSION WITH IMPROVED RENDERI.py`, is not part of this model.
