/**
 * `generate_html_report`, up to the list of lines: a fixed header, five
 * lines per entry, a footer. Joining the lines and writing `index.html` are
 * outside the model.
 */
module Report {
  import opened Wrappers
  import opened Entries

  const Header: seq<string> := [
    "<html><head><title>Visual Regression Report</title>",
    "<style>body{font-family:sans-serif}img{max-width:45%;border:1px solid #ccc;margin:10px}"
      + "div.page{margin-bottom:40px;}label{margin-right:20px} .missing{color:red;}</style>",
    "</head><body>",
    "<h1>Visual Regression Report</h1>"
  ]

  const Footer: string := "</body></html>"

  const Checkboxes: string :=
    "<div><label><input type='checkbox'/> Pass</label><label><input type='checkbox'/> Fail</label></div>"

  /** The "not available" marker shown for a side without an image. */
  function MissingLine(side: string): string
  {
    "<p class='missing'>" + "\U{274C} " + side + " page not available</p>"
  }

  const SourceMissing: string := MissingLine("Source")
  const TargetMissing: string := MissingLine("Target")
  const PageClose: string := "</div>"

  /** The line that opens an entry's block and names its path. */
  function PageOpen(path: string): string
  {
    "<div class='page'><h2>" + path + "</h2>"
  }

  function ImageLine(src: string, alt: string): string
  {
    "<img src='" + src + "' alt='" + alt + "'>"
  }

  /** Python truthiness of an entry's `source` or `target` field: present and non-empty. */
  predicate Truthy(ref: Option<string>)
  {
    ref.Some? && ref.value != ""
  }

  /** The line for one side: its image when the reference is truthy, the "not available" line otherwise. */
  function SideLine(ref: Option<string>, alt: string, missing: string): string
  {
    if Truthy(ref) then ImageLine(ref.value, alt) else missing
  }

  /** The five lines of one entry's block. */
  function EntryLines(e: Entry): (lines: seq<string>)
    ensures |lines| == 5
  {
    [PageOpen(e.path), Checkboxes, SideLine(e.source, "Source", SourceMissing),
     SideLine(e.target, "Target", TargetMissing), PageClose]
  }

  /** The blocks of all entries, in entry order. */
  function Body(entries: seq<Entry>): (lines: seq<string>)
    ensures |lines| == 5 * |entries|
  {
    if entries == [] then [] else Body(entries[..|entries| - 1]) + EntryLines(entries[|entries| - 1])
  }

  /** Adding an entry adds its block at the end of the body. */
  lemma BodyStep(entries: seq<Entry>, i: nat)
    requires i < |entries|
    ensures Body(entries[..i + 1]) == Body(entries[..i]) + EntryLines(entries[i])
  {
    assert entries[..i + 1][..i] == entries[..i];
  }

  /** The whole document, line by line. */
  function ReportLines(entries: seq<Entry>): seq<string>
  {
    Header + Body(entries) + [Footer]
  }

  /** Line `j` of block `i` of the body is line `j` of entry `i`'s block. */
  lemma {:induction false} BodyAt(entries: seq<Entry>, i: nat, j: nat)
    requires i < |entries| && j < 5
    ensures Body(entries)[5 * i + j] == EntryLines(entries[i])[j]
  {
    var init := entries[..|entries| - 1];
    if i < |entries| - 1 {
      BodyAt(init, i, j);
      assert init[i] == entries[i];
    }
  }

  /**
   * The document has the four header lines, then exactly five lines per
   * entry in entry order, then the footer: 5 + 5·n lines in all.
   */
  lemma ReportLayout(entries: seq<Entry>)
    ensures |ReportLines(entries)| == 5 + 5 * |entries|
    ensures ReportLines(entries)[..4] == Header
    ensures ReportLines(entries)[|ReportLines(entries)| - 1] == Footer
    ensures forall i, j :: 0 <= i < |entries| && 0 <= j < 5 ==>
              ReportLines(entries)[4 + 5 * i + j] == EntryLines(entries[i])[j]
  {
    var lines := ReportLines(entries);
    forall i, j | 0 <= i < |entries| && 0 <= j < 5
      ensures lines[4 + 5 * i + j] == EntryLines(entries[i])[j]
    {
      BodyAt(entries, i, j);
      assert lines[4 + 5 * i + j] == Body(entries)[5 * i + j];
    }
  }

  /** An `<img>` line, as opposed to a "not available" line. */
  predicate IsImageLine(line: string)
  {
    |line| >= 5 && line[..5] == "<img "
  }

  /**
   * Each side of an entry's block is an `<img>` line exactly when that
   * side's reference is truthy, pointing at the reference; otherwise it is
   * that side's "not available" line.
   */
  lemma SideLineShown(e: Entry)
    ensures IsImageLine(EntryLines(e)[2]) <==> Truthy(e.source)
    ensures IsImageLine(EntryLines(e)[3]) <==> Truthy(e.target)
    ensures Truthy(e.source) ==> EntryLines(e)[2] == ImageLine(e.source.value, "Source")
    ensures !Truthy(e.source) ==> EntryLines(e)[2] == SourceMissing
    ensures Truthy(e.target) ==> EntryLines(e)[3] == ImageLine(e.target.value, "Target")
    ensures !Truthy(e.target) ==> EntryLines(e)[3] == TargetMissing
  {
    assert !IsImageLine(SourceMissing) by {
      assert SourceMissing[1] == 'p';
    }
    assert !IsImageLine(TargetMissing) by {
      assert TargetMissing[1] == 'p';
    }
    if Truthy(e.source) {
      assert ImageLine(e.source.value, "Source")[..5] == "<img ";
    }
    if Truthy(e.target) {
      assert ImageLine(e.target.value, "Target")[..5] == "<img ";
    }
  }

  /**
   * For the entries `run_test` builds, a side's reference is truthy exactly
   * when it is present, so the report shows a side's image exactly when its
   * failure flag is clear.
   */
  lemma AssembledEntryShown(path: string, sourceMap: map<string, string>, targetMap: map<string, string>,
                            browser: Capture.Browser, retryCount: nat, e: Entry)
    requires EntryFor(path, sourceMap, targetMap, browser, retryCount) == Some(e)
    ensures Truthy(e.source) <==> !e.sourceFailed
    ensures Truthy(e.target) <==> !e.targetFailed
  {
    EntryForRecords(path, sourceMap, targetMap, browser, retryCount);
  }

  /** One pass of the loop of `generate_html_report`: the five lines of `entry`'s block. */
  method AppendEntry(html: seq<string>, entry: Entry) returns (out: seq<string>)
    ensures out == html + EntryLines(entry)
  {
    out := html + [PageOpen(entry.path)];
    out := out + [Checkboxes];
    if Truthy(entry.source) {
      out := out + [ImageLine(entry.source.value, "Source")];
    } else {
      out := out + [SourceMissing];
    }
    if Truthy(entry.target) {
      out := out + [ImageLine(entry.target.value, "Target")];
    } else {
      out := out + [TargetMissing];
    }
    out := out + [PageClose];
  }

  /** `generate_html_report(entries)`, up to the lines of the document. */
  method GenerateHtmlReport(entries: seq<Entry>) returns (html: seq<string>)
    ensures html == ReportLines(entries)
    ensures |html| == 5 + 5 * |entries|
    ensures forall i :: 0 <= i < |entries| ==> html[4 + 5 * i] == PageOpen(entries[i].path)
  {
    html := Header;
    for i := 0 to |entries|
      invariant html == Header + Body(entries[..i])
    {
      html := AppendEntry(html, entries[i]);
      BodyStep(entries, i);
    }
    html := html + [Footer];
    assert entries[..|entries|] == entries;
    PageOpenAt(entries);
  }

  /** Block `i` of the document opens with entry `i`'s path. */
  lemma PageOpenAt(entries: seq<Entry>)
    ensures |ReportLines(entries)| == 5 + 5 * |entries|
    ensures forall i :: 0 <= i < |entries| ==> ReportLines(entries)[4 + 5 * i] == PageOpen(entries[i].path)
  {
    ReportLayout(entries);
    forall i | 0 <= i < |entries|
      ensures ReportLines(entries)[4 + 5 * i] == PageOpen(entries[i].path)
    {
      assert ReportLines(entries)[4 + 5 * i + 0] == EntryLines(entries[i])[0];
    }
  }
}
