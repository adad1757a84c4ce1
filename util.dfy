/** URL normalisation (cleanupURL in api/sourceimpl/util.go): turns a
    git-clonable or otherwise raw URL into a browser-viewable https URL. */
module Util {
  import opened Strs
  import opened SourceType
  import opened SourceDetect

  /** The scheme rewriting shared by cleanupURL and the older
      cleanupRepositoryURL: drop one ".git" suffix and the "git+" and "git://"
      prefixes, rewrite `git@host:path` and `ssh://git@host/path` to
      `https://host/path`, and make sure the result starts with "https://". */
  function NormalizeScheme(url: string): (r: string)
    ensures HasPrefix(r, "https://")
  {
    var u1 := TrimSuffix(url, ".git");
    var u2 := TrimPrefix(u1, "git+");
    var u3 := TrimPrefix(u2, "git://");
    var u4 := if HasPrefix(u3, "git@") then "https://" + ReplaceFirst(TrimPrefix(u3, "git@"), ":", "/") else u3;
    var u5 := if HasPrefix(u4, "ssh://") then "https://" + TrimPrefix(TrimPrefix(u4, "ssh://"), "git@") else u4;
    if HasPrefix(u5, "https://") then u5 else "https://" + u5
  }

  /** The type cleanupURL works with: the given one, or the detected one when
      the caller passed Unknown. */
  function EffectiveType(url: string, t: Type): Type {
    if t == Unknown then DetectSourceTypeFromURL(NormalizeScheme(url)) else t
  }

  function CleanupURL(url: string, t: Type): (r: string)
    ensures HasPrefix(r, "https://")
    ensures EffectiveType(url, t).IsRepository() ==> '#' !in r
  {
    Finish(NormalizeScheme(url), EffectiveType(url, t))
  }

  /** The type-dependent tail of cleanupURL: repository URLs lose their
      fragment, GitLab URLs lose every "/-/" segment marker. */
  function Finish(u: string, t: Type): (r: string)
    requires HasPrefix(u, "https://")
    ensures HasPrefix(r, "https://")
    ensures t.IsRepository() ==> '#' !in r
  {
    var v := if t.IsRepository() then CutAt(u, '#') else u;
    CutAtKeepsHttps(u, t.IsRepository());
    if t == GitLab && Contains(v, "/-/") then
      RemoveDashSegmentsKeepsHttps(v);
      ReplaceAllKeepsChar(v, "/-/", "/", '#');
      ReplaceAll(v, "/-/", "/")
    else v
  }

  lemma CutAtKeepsHttps(u: string, cut: bool)
    requires HasPrefix(u, "https://")
    ensures HasPrefix(if cut then CutAt(u, '#') else u, "https://")
  {
    if cut && '#' in u {
      var r := CutAt(u, '#');
      assert u[|r|] == '#';
      assert |r| >= 8;
      assert r[..8] == u[..8];
    }
  }

  /** ReplaceAll of "/-/" by "/" cannot damage a leading "https://". */
  lemma RemoveDashSegmentsKeepsHttps(v: string)
    requires HasPrefix(v, "https://")
    ensures HasPrefix(ReplaceAll(v, "/-/", "/"), "https://")
  {
    NoOccurrenceBefore(v, "/-/", 7, 1);
    ReplaceAllSkip(v, "/-/", "/", 7);
    var w := v[7..];
    assert w[0] == '/';
    if OccursAt(w, "/-/", 0) {
      assert w[0..3] == "/-/";
      assert ReplaceAll(w, "/-/", "/") == "/" + ReplaceAll(w[3..], "/-/", "/");
    } else {
      ReplaceAllStep(w, "/-/", "/");
    }
  }
}
