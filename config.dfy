/** The configuration constants at the top of the regression script. */
module Config {

  /** The live site whose pages are the reference. */
  const SourceSite: string := "https://bumperdocbrooklyn.com"

  /** The staging site compared against the live one. */
  const TargetSite: string := "https://staging2.bumperdocbrooklyn.com"

  const SourceSitemapUrl: string := SourceSite + "/page-sitemap.xml"
  const TargetSitemapUrl: string := TargetSite + "/page-sitemap.xml"

  /** Directory that receives the screenshots, the log and index.html. */
  const ReportDir: string := "regression_report_bumperdoc"

  const Headless: bool := true

  /** Attempts made per screenshot before giving up. */
  const RetryCount: nat := 2
}
