/**
 * `get_path_slug`: the directory name under which a page's screenshots are
 * stored. Leading and trailing `/` are stripped, inner `/` become `_`, and
 * an empty result becomes `home`.
 */
module Slug {
  import opened Strings

  predicate IsSlash(c: char)
  {
    c == '/'
  }

  /** No `/` anywhere in `s`. */
  predicate SlashFree(s: string)
  {
    forall i :: 0 <= i < |s| ==> s[i] != '/'
  }

  /** `path.strip('/').replace('/', '_') or 'home'`. */
  function PathSlug(path: string): (r: string)
    ensures |r| > 0 && SlashFree(r)
  {
    var flat := ReplaceChar(Strip(path, IsSlash), '/', '_');
    if flat == "" then "home" else flat
  }

  /** Replacing a character that does not occur changes nothing. */
  lemma ReplaceAbsent(s: string, from: char, to: char)
    requires forall i :: 0 <= i < |s| ==> s[i] != from
    ensures ReplaceChar(s, from, to) == s
  {
  }

  /**
   * The `or 'home'` fallback is taken exactly when the path is empty or
   * made of slashes only.
   */
  lemma SlugFallback(path: string)
    ensures ReplaceChar(Strip(path, IsSlash), '/', '_') == "" <==> AllDropped(path, IsSlash)
  {
  }

  /**
   * The slug is `home` exactly when the path is empty or all slashes, or when
   * the path is `home` itself wrapped in slashes (`/home/`).
   */
  lemma SlugIsHome(path: string)
    ensures PathSlug(path) == "home" <==> AllDropped(path, IsSlash) || Strip(path, IsSlash) == "home"
  {
    var stripped := Strip(path, IsSlash);
    var flat := ReplaceChar(stripped, '/', '_');
    if stripped == "home" {
      ReplaceAbsent(stripped, '/', '_');
    }
    if flat == "home" && !AllDropped(path, IsSlash) {
      assert |stripped| == 4;
      forall i | 0 <= i < 4
        ensures stripped[i] == "home"[i]
      {
        assert flat[i] != '_';
      }
    }
  }

  /** A non-empty string without slashes is its own slug. */
  lemma SlugOfSlashFree(s: string)
    requires s != "" && SlashFree(s)
    ensures PathSlug(s) == s
  {
    StripKeptString(s, IsSlash);
    ReplaceAbsent(s, '/', '_');
  }

  /** A slug is its own slug. */
  lemma SlugIdempotent(path: string)
    ensures PathSlug(PathSlug(path)) == PathSlug(path)
  {
    SlugOfSlashFree(PathSlug(path));
  }

  /** The slug of a path whose two stages are known. */
  lemma SlugFromStages(path: string, left: string, stripped: string)
    requires StripLeft(path, IsSlash) == left && StripRight(left, IsSlash) == stripped
    ensures PathSlug(path) == if stripped == "" then "home" else ReplaceChar(stripped, '/', '_')
  {
  }

  /** `get_path_slug("/a/b/")` is `a_b`. */
  lemma SlugOfNestedPath()
    ensures PathSlug("/a/b/") == "a_b"
  {
    assert StripLeft("/a/b/", IsSlash) == "a/b/";
    assert StripRight("a/b/", IsSlash) == "a/b";
    SlugFromStages("/a/b/", "a/b/", "a/b");
    assert ReplaceChar("a/b", '/', '_') == "a_b";
  }

  /** The empty path and the root path both get the slug `home`. */
  lemma SlugOfRoot()
    ensures PathSlug("") == "home" && PathSlug("/") == "home"
  {
    assert StripLeft("/", IsSlash) == "";
  }

  /** `/a/b` and `/a_b` share the slug `a_b`, and so one screenshot directory. */
  lemma SlugCollidesOnUnderscore()
    ensures PathSlug("/a/b") == "a_b" && PathSlug("/a_b") == "a_b"
  {
    assert StripLeft("/a/b", IsSlash) == "a/b";
    assert StripRight("a/b", IsSlash) == "a/b";
    SlugFromStages("/a/b", "a/b", "a/b");
    assert ReplaceChar("a/b", '/', '_') == "a_b";
    assert StripLeft("/a_b", IsSlash) == "a_b";
    assert StripRight("a_b", IsSlash) == "a_b";
    SlugFromStages("/a_b", "a_b", "a_b");
    assert ReplaceChar("a_b", '/', '_') == "a_b";
  }

  /** `/home` gets the slug `home`, which `SlugOfRoot` gives the root path too. */
  lemma SlugCollidesOnHome()
    ensures PathSlug("/home") == "home"
  {
    assert StripLeft("/home", IsSlash) == "home";
    assert StripRight("home", IsSlash) == "home";
    SlugFromStages("/home", "home", "home");
  }
}
