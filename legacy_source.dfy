/** The older URL helpers of package api (api/source.go): URL sniffing
    without the Packagist host, and the repository-URL normalisation that
    keeps fragments. Both are compared with their successors in
    api/source/detect.go and api/sourceimpl/util.go. */
module LegacySource {
  import opened Strs
  import opened SourceType
  import SourceDetect
  import opened Util
  import UtilCases

  /** The host names the older switch tests, in its order: those of the
      current detector without packagist.org. */
  const LegacyHostTable: seq<(string, Type)> := [
    ("github.com", GitHub), ("gitlab.com", GitLab), ("rubygems.org", RubyGems),
    ("npmjs.com", NPM), ("jsr.io", JSR), ("pkg.go.dev", GoPkgDev),
    ("crates.io", CratesIO)]

  /** detectSourceTypeFromURL: the type of the first host name that occurs
      in the URL, or Unknown. */
  function DetectSourceTypeFromURL(url: string): Type {
    SourceDetect.FirstHostMatch(url, LegacyHostTable)
  }

  /** cleanupRepositoryURL: the shared scheme rewriting, then, for a GitLab
      URL, every "/-/" replaced by "/". Nothing is cut at '#'. */
  function CleanupRepositoryURL(url: string): (r: string)
    ensures HasPrefix(r, "https://")
  {
    var u := NormalizeScheme(url);
    if DetectSourceTypeFromURL(u) == GitLab && Contains(u, "/-/") then
      RemoveDashSegmentsKeepsHttps(u);
      ReplaceAll(u, "/-/", "/")
    else u
  }

  // ---------------------------------------------------------------------
  // Properties

  /** The search over the table is the switch of api/source.go. */
  lemma {:induction false} DetectSwitch(url: string)
    ensures DetectSourceTypeFromURL(url) ==
      if Contains(url, "github.com") then GitHub
      else if Contains(url, "gitlab.com") then GitLab
      else if Contains(url, "rubygems.org") then RubyGems
      else if Contains(url, "npmjs.com") then NPM
      else if Contains(url, "jsr.io") then JSR
      else if Contains(url, "pkg.go.dev") then GoPkgDev
      else if Contains(url, "crates.io") then CratesIO
      else Unknown
  {
    var t := LegacyHostTable;
    assert SourceDetect.FirstHostMatch(url, t[7..]) == Unknown;
    assert SourceDetect.FirstHostMatch(url, t[6..]) == if Contains(url, "crates.io") then CratesIO else SourceDetect.FirstHostMatch(url, t[7..]);
    assert SourceDetect.FirstHostMatch(url, t[5..]) == if Contains(url, "pkg.go.dev") then GoPkgDev else SourceDetect.FirstHostMatch(url, t[6..]);
    assert SourceDetect.FirstHostMatch(url, t[4..]) == if Contains(url, "jsr.io") then JSR else SourceDetect.FirstHostMatch(url, t[5..]);
    assert SourceDetect.FirstHostMatch(url, t[3..]) == if Contains(url, "npmjs.com") then NPM else SourceDetect.FirstHostMatch(url, t[4..]);
    assert SourceDetect.FirstHostMatch(url, t[2..]) == if Contains(url, "rubygems.org") then RubyGems else SourceDetect.FirstHostMatch(url, t[3..]);
    assert SourceDetect.FirstHostMatch(url, t[1..]) == if Contains(url, "gitlab.com") then GitLab else SourceDetect.FirstHostMatch(url, t[2..]);
  }

  /** The older detector answers like the current one, except that a URL
      the current one calls Packagist is Unknown to it. */
  lemma DetectAgreesExceptPackagist(url: string)
    ensures DetectSourceTypeFromURL(url) ==
              if SourceDetect.DetectSourceTypeFromURL(url) == Packagist then Unknown
              else SourceDetect.DetectSourceTypeFromURL(url)
  {
    DetectSwitch(url);
    SourceDetect.DetectSwitch(url);
  }

  /** The older detector never answers Packagist, PyPI, Homepage or
      Documentation, and answers Unknown exactly when none of its seven
      host names occurs. */
  lemma DetectRange(url: string)
    ensures DetectSourceTypeFromURL(url) !in {Packagist, PyPI, Homepage, Documentation}
    ensures DetectSourceTypeFromURL(url) == Unknown <==>
              forall i :: 0 <= i < |LegacyHostTable| ==> !Contains(url, LegacyHostTable[i].0)
  {
    DetectSwitch(url);
    var t := LegacyHostTable;
    if DetectSourceTypeFromURL(url) == Unknown {
      forall i | 0 <= i < |t|
        ensures !Contains(url, t[i].0)
      {
        assert t[i] in t;
      }
    }
  }

  /** The rewriting never brings in a character that is not in the input,
      in "https://" or '/'. */
  lemma NormalizeSchemeKeepsChar(url: string, c: char)
    requires c !in url && c !in "https://" && c != '/'
    ensures c !in NormalizeScheme(url)
  {
    var u1 := TrimSuffix(url, ".git");
    assert c !in u1 by {
      assert forall k :: 0 <= k < |u1| ==> u1[k] == url[k];
    }
    var u2 := TrimPrefix(u1, "git+");
    var u3 := TrimPrefix(u2, "git://");
    var u4 := if HasPrefix(u3, "git@") then "https://" + ReplaceFirst(TrimPrefix(u3, "git@"), ":", "/") else u3;
    assert c !in u4 by {
      if HasPrefix(u3, "git@") {
        var w := TrimPrefix(u3, "git@");
        if Contains(w, ":") {
          var k :| OccursAt(w, ":", k) && ReplaceFirst(w, ":", "/") == w[..k] + "/" + w[k + 1..];
          assert c !in w[..k] && c !in w[k + 1..];
        }
      }
    }
    var u5 := if HasPrefix(u4, "ssh://") then "https://" + TrimPrefix(TrimPrefix(u4, "ssh://"), "git@") else u4;
    assert c !in u5;
  }

  /** Once normalised, a URL without a '#' is cleaned alike by the older
      function and by cleanupURL of an untyped URL: the two differ only in
      the fragment cut. */
  lemma CleanupAgreesWithoutFragment(url: string)
    requires '#' !in NormalizeScheme(url)
    ensures CleanupRepositoryURL(url) == CleanupURL(url, Unknown)
  {
    DetectAgreesExceptPackagist(NormalizeScheme(url));
  }

  /** In particular for every URL without a '#'. */
  lemma NoFragmentAgrees(url: string)
    requires '#' !in url
    ensures CleanupRepositoryURL(url) == CleanupURL(url, Unknown)
  {
    NormalizeSchemeKeepsChar(url, '#');
    CleanupAgreesWithoutFragment(url);
  }

  /** A URL that is not GitLab's keeps its fragment here, where cleanupURL
      drops it for GitHub URLs. */
  lemma FragmentKept(url: string)
    requires SourceDetect.DetectSourceTypeFromURL(NormalizeScheme(url)) != GitLab
    ensures CleanupRepositoryURL(url) == NormalizeScheme(url)
    ensures SourceDetect.DetectSourceTypeFromURL(NormalizeScheme(url)) == GitHub ==>
              CleanupURL(url, Unknown) == CutAt(NormalizeScheme(url), '#')
  {
    DetectAgreesExceptPackagist(NormalizeScheme(url));
  }

  /** Once the scheme is normal and the URL has no '#' and no '-', the
      older function returns the normalised URL. */
  lemma CleanupPlain(url: string, n: string)
    requires NormalizeScheme(url) == n && '#' !in n && '-' !in n
    ensures CleanupRepositoryURL(url) == n
  {
    NotContainsByChar(n, "/-/", 1);
  }

  // General forms of the rows of the URL table of
  // api/sourceimpl/util_test.go:11-55, for every path without '#' and '-'.

  lemma CleanupHttpsGit(r: string)
    requires '#' !in r && '-' !in r
    ensures CleanupRepositoryURL("https://" + r + ".git") == "https://" + r
  {
    UtilCases.NormalizeHttpsGit(r);
    UtilCases.HttpsPlain(r);
    CleanupPlain("https://" + r + ".git", "https://" + r);
  }

  lemma CleanupGitPlus(r: string)
    requires '#' !in r && '-' !in r
    ensures CleanupRepositoryURL("git+https://" + r + ".git") == "https://" + r
  {
    UtilCases.NormalizeGitPlus(r);
    UtilCases.HttpsPlain(r);
    CleanupPlain("git+https://" + r + ".git", "https://" + r);
  }

  lemma CleanupScp(host: string, path: string)
    requires ':' !in host && '#' !in host + path && '-' !in host + path
    ensures CleanupRepositoryURL("git@" + host + ":" + path + ".git") == "https://" + host + "/" + path
  {
    UtilCases.NormalizeScp(host, path);
    UtilCases.HttpsPlain(host + "/" + path);
    CleanupPlain("git@" + host + ":" + path + ".git", "https://" + host + "/" + path);
  }

  lemma CleanupSsh(r: string)
    requires '#' !in r && '-' !in r
    ensures CleanupRepositoryURL("ssh://git@" + r + ".git") == "https://" + r
  {
    UtilCases.NormalizeSsh(r);
    UtilCases.HttpsPlain(r);
    CleanupPlain("ssh://git@" + r + ".git", "https://" + r);
  }

  lemma CleanupGitProtocol(r: string)
    requires !HasPrefix(r, "git@") && !HasPrefix(r, "ssh://") && !HasPrefix(r, "https://")
    requires '#' !in r && '-' !in r
    ensures CleanupRepositoryURL("git://" + r + ".git") == "https://" + r
  {
    UtilCases.NormalizeGitProtocol(r);
    UtilCases.HttpsPlain(r);
    CleanupPlain("git://" + r + ".git", "https://" + r);
  }

  /** A gitlab.com URL that does not also mention github.com loses its "/-/"
      marker here as in cleanupURL. */
  lemma CleanupGitLabMarker(p: string, q: string)
    requires '-' !in p && '#' !in p && '-' !in q && '#' !in q
    requires !Contains("https://gitlab.com/" + p + "/-/" + q, "github.com")
    requires |q| >= 4 && !HasSuffix(q, ".git")
    ensures CleanupRepositoryURL("https://gitlab.com/" + p + "/-/" + q) == "https://gitlab.com/" + p + "/" + q
  {
    var u := "https://gitlab.com/" + p + "/-/" + q;
    UtilCases.MarkerNormal(p, q);
    UtilCases.GitLabHead(p);
    assert '#' !in u;
    CleanupAgreesWithoutFragment(u);
    UtilCases.CleanupGitLabMarker(p, q);
  }

  // The rows themselves, each URL written as its scheme, its host and
  // path, and its suffix.

  lemma TableRowGitHubHttps()
    ensures CleanupRepositoryURL("https://" + "github.com/org/repo" + ".git") == "https://" + "github.com/org/repo"
  {
    CleanupHttpsGit("github.com/org/repo");
  }

  lemma TableRowGitHubGitPlus()
    ensures CleanupRepositoryURL("git+https://" + "github.com/org/repo" + ".git") == "https://" + "github.com/org/repo"
  {
    CleanupGitPlus("github.com/org/repo");
  }

  lemma TableRowGitHubScp()
    ensures CleanupRepositoryURL("git@" + "github.com" + ":" + "org/repo" + ".git") == "https://" + "github.com" + "/" + "org/repo"
  {
    CleanupScp("github.com", "org/repo");
  }

  lemma TableRowGitHubSsh()
    ensures CleanupRepositoryURL("ssh://git@" + "github.com/org/repo" + ".git") == "https://" + "github.com/org/repo"
  {
    CleanupSsh("github.com/org/repo");
  }

  lemma TableRowGitHubGitProtocol()
    ensures CleanupRepositoryURL("git://" + "github.com/org/repo" + ".git") == "https://" + "github.com/org/repo"
  {
    var r := "github.com/org/repo";
    NotPrefixAt(r, "git@", 3);
    NotPrefixAt(r, "ssh://", 0);
    NotPrefixAt(r, "https://", 0);
    CleanupGitProtocol(r);
  }

  /** The "/-/" row. */
  lemma TableRowGitLabTree()
    ensures CleanupRepositoryURL("https://gitlab.com/" + "org/repo" + "/-/" + "tree/main")
         == "https://gitlab.com/" + "org/repo" + "/" + "tree/main"
  {
    NotSuffixAt("tree/main", ".git", 1);
    NotContainsByChar("https://gitlab.com/" + "org/repo" + "/-/" + "tree/main", "github.com", 4);
    CleanupGitLabMarker("org/repo", "tree/main");
  }

  lemma TableRowGitLabScp()
    ensures CleanupRepositoryURL("git@" + "gitlab.com" + ":" + "org/repo" + ".git") == "https://" + "gitlab.com" + "/" + "org/repo"
  {
    CleanupScp("gitlab.com", "org/repo");
  }

  lemma TableRowOtherHttps()
    ensures CleanupRepositoryURL("https://" + "gitea.example.com/org/repo" + ".git") == "https://" + "gitea.example.com/org/repo"
  {
    CleanupHttpsGit("gitea.example.com/org/repo");
  }

  lemma TableRowOtherScp()
    ensures CleanupRepositoryURL("git@" + "gitea.example.com" + ":" + "org/repo" + ".git") == "https://" + "gitea.example.com" + "/" + "org/repo"
  {
    CleanupScp("gitea.example.com", "org/repo");
  }
}
