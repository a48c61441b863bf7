/**
 * The path reconciliation of `run_test`: each site's URLs are keyed by their
 * URL path (the path component of section 3.3 of RFC 3986, which `run_test`
 * obtains from `urlparse`), and the sorted union of both key sets decides
 * which pages are compared.
 */
module Reconcile {
  import opened Order
  import Config

  type Url = string
  type Path = string

  /** Whether some URL of `urls` has the path `p`. */
  predicate HasPath(urls: seq<Url>, pathOf: Url -> Path, p: Path)
  {
    exists i :: 0 <= i < |urls| && pathOf(urls[i]) == p
  }

  /**
   * `{urlparse(u).path: u for u in urls}`: a map from path to URL whose keys
   * are the paths of `urls` and whose every value is a URL of `urls` with
   * that path.
   */
  function PathMap(urls: seq<Url>, pathOf: Url -> Path): (m: map<Path, Url>)
    ensures forall p :: p in m <==> HasPath(urls, pathOf, p)
    ensures forall p :: p in m ==> m[p] in urls && pathOf(m[p]) == p
  {
    if urls == [] then map[]
    else
      var init := urls[..|urls| - 1];
      var last := urls[|urls| - 1];
      var m := PathMap(init, pathOf);
      assert forall p :: HasPath(urls, pathOf, p) <==> HasPath(init, pathOf, p) || pathOf(last) == p by {
        forall p | HasPath(urls, pathOf, p) && pathOf(last) != p
          ensures HasPath(init, pathOf, p)
        {
          var i :| 0 <= i < |urls| && pathOf(urls[i]) == p;
          assert urls[i] == init[i];
        }
        forall p | HasPath(init, pathOf, p)
          ensures HasPath(urls, pathOf, p)
        {
          var i :| 0 <= i < |init| && pathOf(init[i]) == p;
          assert init[i] == urls[i];
        }
      }
      m[pathOf(last) := last]
  }

  /**
   * When a path occurs more than once, the map keeps the last URL with that
   * path: the URL at index `i` wins when no later URL shares its path.
   */
  lemma {:induction false} PathMapLastWins(urls: seq<Url>, pathOf: Url -> Path, i: nat)
    requires i < |urls|
    requires forall j :: i < j < |urls| ==> pathOf(urls[j]) != pathOf(urls[i])
    ensures pathOf(urls[i]) in PathMap(urls, pathOf)
    ensures PathMap(urls, pathOf)[pathOf(urls[i])] == urls[i]
  {
    if i < |urls| - 1 {
      var init := urls[..|urls| - 1];
      assert init[i] == urls[i];
      forall j | i < j < |init|
        ensures pathOf(init[j]) != pathOf(init[i])
      {
        assert init[j] == urls[j];
      }
      PathMapLastWins(init, pathOf, i);
    }
  }

  /** The path of every URL, in order. */
  function Paths(urls: seq<Url>, pathOf: Url -> Path): (ps: seq<Path>)
    ensures |ps| == |urls|
    ensures forall p :: p in ps <==> HasPath(urls, pathOf, p)
  {
    var ps := seq(|urls|, i requires 0 <= i < |urls| => pathOf(urls[i]));
    assert forall p :: HasPath(urls, pathOf, p) ==> p in ps by {
      forall p | HasPath(urls, pathOf, p) ensures p in ps {
        var i :| 0 <= i < |urls| && pathOf(urls[i]) == p;
        assert ps[i] == p;
      }
    }
    ps
  }

  /**
   * `sorted(set(source_map.keys()).union(set(target_map.keys())))`: the
   * paths of either site, strictly increasing and each once.
   */
  function ReconciledPaths(sourceUrls: seq<Url>, targetUrls: seq<Url>, pathOf: Url -> Path): (r: seq<Path>)
    ensures StrictlySorted(r)
    ensures forall p :: p in r <==> p in PathMap(sourceUrls, pathOf) || p in PathMap(targetUrls, pathOf)
  {
    SortedUnique(Paths(sourceUrls, pathOf) + Paths(targetUrls, pathOf))
  }

  /**
   * The reconciled paths are THE sorted listing of the union of both key
   * sets: any strictly increasing sequence of exactly those paths equals it.
   */
  lemma ReconciledPathsIsSortedUnion(sourceUrls: seq<Url>, targetUrls: seq<Url>, pathOf: Url -> Path, s: seq<Path>)
    requires StrictlySorted(s)
    requires forall p :: p in s <==> p in PathMap(sourceUrls, pathOf).Keys + PathMap(targetUrls, pathOf).Keys
    ensures ReconciledPaths(sourceUrls, targetUrls, pathOf) == s
  {
    SortedUniqueIsSortedSet(Paths(sourceUrls, pathOf) + Paths(targetUrls, pathOf), s);
  }

  /** The homepage fallback: an empty target list becomes `[TARGET_SITE + "/"]`. */
  function WithFallback(targetUrls: seq<Url>): (r: seq<Url>)
    ensures r != []
    ensures targetUrls != [] ==> r == targetUrls
  {
    if targetUrls == [] then [Config.TargetSite + "/"] else targetUrls
  }

  /**
   * With the fallback in place the target map is exactly
   * `{"/": TARGET_SITE + "/"}`, so the root path is among the reconciled
   * paths. `urlparse` gives the path `/` for the target site's root URL; the
   * requires clause states that of the path function.
   */
  lemma FallbackKeepsHomepage(sourceUrls: seq<Url>, pathOf: Url -> Path)
    requires pathOf(Config.TargetSite + "/") == "/"
    ensures PathMap(WithFallback([]), pathOf) == map["/" := Config.TargetSite + "/"]
    ensures "/" in ReconciledPaths(sourceUrls, WithFallback([]), pathOf)
  {
    var urls := WithFallback([]);
    assert HasPath(urls, pathOf, "/") by {
      assert pathOf(urls[0]) == "/";
    }
  }

  /** Every reconciled path is taken from at least one site. */
  lemma ReconciledPathHasPage(sourceUrls: seq<Url>, targetUrls: seq<Url>, pathOf: Url -> Path, k: nat)
    requires k < |ReconciledPaths(sourceUrls, targetUrls, pathOf)|
    ensures var p := ReconciledPaths(sourceUrls, targetUrls, pathOf)[k];
            HasPath(sourceUrls, pathOf, p) || HasPath(targetUrls, pathOf, p)
  {
    var ps := ReconciledPaths(sourceUrls, targetUrls, pathOf);
    assert ps[k] in ps;
  }
}

/**
 * A live site listing `/` and `/about`, and a staging site listing
 * `/about` and `/contact`.
 */
module ReconcileScenario {
  import opened Order
  import opened Reconcile
  import Config

  const SourceHome: Url := Config.SourceSite + "/"
  const SourceAbout: Url := Config.SourceSite + "/about"
  const TargetAbout: Url := Config.TargetSite + "/about"
  const TargetContact: Url := Config.TargetSite + "/contact"

  /** URL paths as `urlparse` reports them for the four URLs. */
  predicate ScenarioPaths(pathOf: Url -> Path)
  {
    && pathOf(SourceHome) == "/" && pathOf(SourceAbout) == "/about"
    && pathOf(TargetAbout) == "/about" && pathOf(TargetContact) == "/contact"
  }

  /** The reconciled paths are `/`, `/about`, `/contact`, in that order. */
  lemma ScenarioReconciled(pathOf: Url -> Path)
    requires ScenarioPaths(pathOf)
    ensures ReconciledPaths([SourceHome, SourceAbout], [TargetAbout, TargetContact], pathOf)
            == ["/", "/about", "/contact"]
    ensures "/" in PathMap([SourceHome, SourceAbout], pathOf)
            && "/" !in PathMap([TargetAbout, TargetContact], pathOf)
    ensures "/contact" !in PathMap([SourceHome, SourceAbout], pathOf)
            && "/contact" in PathMap([TargetAbout, TargetContact], pathOf)
    ensures "/about" in PathMap([SourceHome, SourceAbout], pathOf)
            && "/about" in PathMap([TargetAbout, TargetContact], pathOf)
  {
    var src := [SourceHome, SourceAbout];
    var tgt := [TargetAbout, TargetContact];
    var s: seq<Path> := ["/", "/about", "/contact"];
    assert Less("/", "/about") && Less("/about", "/contact") && Less("/", "/contact");
    assert StrictlySorted(s);
    assert HasPath(src, pathOf, "/") by { assert pathOf(src[0]) == "/"; }
    assert HasPath(src, pathOf, "/about") by { assert pathOf(src[1]) == "/about"; }
    assert HasPath(tgt, pathOf, "/about") by { assert pathOf(tgt[0]) == "/about"; }
    assert HasPath(tgt, pathOf, "/contact") by { assert pathOf(tgt[1]) == "/contact"; }
    assert !HasPath(tgt, pathOf, "/") by {
      assert "/" != "/about" && "/" != "/contact";
    }
    assert !HasPath(src, pathOf, "/contact") by {
      assert "/contact" != "/" && "/contact" != "/about";
    }
    forall p
      ensures p in s <==> p in PathMap(src, pathOf).Keys + PathMap(tgt, pathOf).Keys
    {
      if HasPath(src, pathOf, p) {
        var i :| 0 <= i < 2 && pathOf(src[i]) == p;
      }
      if HasPath(tgt, pathOf, p) {
        var i :| 0 <= i < 2 && pathOf(tgt[i]) == p;
      }
    }
    ReconciledPathsIsSortedUnion(src, tgt, pathOf, s);
  }
}
