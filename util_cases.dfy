/** cleanupURL worked through its normalisation step by step. The URL table
    of api/sourceimpl/util_test.go calls cleanupRepositoryURL, which only
    package api defines (LegacySource.TableRow* replay it there); here the
    same rows are applied to cleanupURL, its successor. */
module UtilCases {
  import opened Strs
  import opened SourceType
  import opened SourceDetect
  import opened Util

  /** Without '#' and '-', neither the fragment cut nor the GitLab rewrite
      changes an https URL, whatever the type. */
  lemma FinishPlain(u: string, t: Type)
    requires HasPrefix(u, "https://") && '#' !in u && '-' !in u
    ensures Finish(u, t) == u
  {
    NotContainsByChar(u, "/-/", 1);
  }

  /** `git@host:path` rewriting. */
  lemma ScpToHttps(host: string, path: string)
    requires ':' !in host
    ensures ReplaceFirst(host + ":" + path, ":", "/") == host + "/" + path
  {
    var s := host + ":" + path;
    NoOccurrenceBefore(s, ":", |host|, 0);
    assert s[|host|..|host| + 1] == ":";
    IndexOfAt(s, ":", |host|);
    assert s[..|host|] == host && s[|host| + 1..] == path;
  }

  lemma TrimGitSuffix(u: string)
    ensures TrimSuffix(u + ".git", ".git") == u
  {
    assert (u + ".git")[|u|..] == ".git";
  }

  /** https://R.git */
  lemma NormalizeHttpsGit(r: string)
    ensures NormalizeScheme("https://" + r + ".git") == "https://" + r
  {
    var u := "https://" + r;
    TrimGitSuffix(u);
    NotPrefixAt(u, "git+", 0);
    NotPrefixAt(u, "git://", 0);
    NotPrefixAt(u, "git@", 0);
    NotPrefixAt(u, "ssh://", 0);
    assert HasPrefix(u, "https://");
  }

  /** git+https://R.git */
  lemma NormalizeGitPlus(r: string)
    ensures NormalizeScheme("git+https://" + r + ".git") == "https://" + r
  {
    var u := "https://" + r;
    assert "git+https://" + r == "git+" + u;
    TrimGitSuffix("git+" + u);
    assert TrimPrefix("git+" + u, "git+") == u;
    NotPrefixAt(u, "git://", 0);
    NotPrefixAt(u, "git@", 0);
    NotPrefixAt(u, "ssh://", 0);
    assert HasPrefix(u, "https://");
  }

  /** git@HOST:PATH.git */
  lemma NormalizeScp(host: string, path: string)
    requires ':' !in host
    ensures NormalizeScheme("git@" + host + ":" + path + ".git") == "https://" + host + "/" + path
  {
    ScpToHttps(host, path);
    NormalizeScpStages(host + ":" + path, host + "/" + path);
    Regroup("git@", host, ":", path, ".git");
    Regroup("https://", host, "/", path, []);
  }

  /** git@HP.git, where the first ':' of HP becomes '/' to give V. */
  lemma NormalizeScpStages(hp: string, v: string)
    requires ReplaceFirst(hp, ":", "/") == v
    ensures NormalizeScheme("git@" + hp + ".git") == "https://" + v
  {
    var u := "git@" + hp;
    TrimGitSuffix(u);
    NotPrefixAt(u, "git+", 3);
    NotPrefixAt(u, "git://", 3);
    assert HasPrefix(u, "git@") && TrimPrefix(u, "git@") == hp;
    NotPrefixAt("https://" + v, "ssh://", 0);
    assert HasPrefix("https://" + v, "https://");
  }

  /** ssh://git@R.git */
  lemma NormalizeSsh(r: string)
    ensures NormalizeScheme("ssh://git@" + r + ".git") == "https://" + r
  {
    var u := "ssh://" + ("git@" + r);
    assert "ssh://git@" + r == u;
    TrimGitSuffix(u);
    NotPrefixAt(u, "git+", 0);
    NotPrefixAt(u, "git://", 0);
    NotPrefixAt(u, "git@", 0);
    assert TrimPrefix(u, "ssh://") == "git@" + r;
    assert TrimPrefix("git@" + r, "git@") == r;
  }

  /** git://R.git, for an R that starts with none of the other schemes. */
  lemma NormalizeGitProtocol(r: string)
    requires !HasPrefix(r, "git@") && !HasPrefix(r, "ssh://") && !HasPrefix(r, "https://")
    ensures NormalizeScheme("git://" + r + ".git") == "https://" + r
  {
    var u := "git://" + r;
    TrimGitSuffix(u);
    NotPrefixAt(u, "git+", 3);
    assert TrimPrefix(u, "git://") == r;
  }

  /** An https URL without a ".git" suffix is already normal. */
  lemma NormalizeHttpsPlain(r: string)
    requires !HasSuffix("https://" + r, ".git")
    ensures NormalizeScheme("https://" + r) == "https://" + r
  {
    var u := "https://" + r;
    NotPrefixAt(u, "git+", 0);
    NotPrefixAt(u, "git://", 0);
    NotPrefixAt(u, "git@", 0);
    NotPrefixAt(u, "ssh://", 0);
    assert HasPrefix(u, "https://");
  }

  /** cleanupURL as the composition of its two stages. */
  lemma CleanupStages(url: string, t: Type)
    ensures CleanupURL(url, t) == Finish(NormalizeScheme(url), EffectiveType(url, t))
  {
  }

  /** Once the scheme is normal and the URL has no '#' and no '-', cleanupURL
      returns the normalised URL unchanged, whatever the type. */
  lemma CleanupPlain(url: string, t: Type, n: string)
    requires NormalizeScheme(url) == n && '#' !in n && '-' !in n
    ensures CleanupURL(url, t) == n
  {
    CleanupStages(url, t);
    FinishPlain(n, EffectiveType(url, t));
  }

  // General forms of the table rows: each holds for every path of its shape,
  // whatever type the caller passes, as long as there is no '#' and no '-'.

  lemma CleanupHttpsGit(r: string, t: Type)
    requires '#' !in r && '-' !in r
    ensures CleanupURL("https://" + r + ".git", t) == "https://" + r
  {
    assert NormalizeScheme("https://" + r + ".git") == "https://" + r by {
      NormalizeHttpsGit(r);
    }
    assert '#' !in "https://" + r && '-' !in "https://" + r by {
      HttpsPlain(r);
    }
    CleanupPlain("https://" + r + ".git", t, "https://" + r);
  }


  lemma CleanupGitPlus(r: string, t: Type)
    requires '#' !in r && '-' !in r
    ensures CleanupURL("git+https://" + r + ".git", t) == "https://" + r
  {
    assert NormalizeScheme("git+https://" + r + ".git") == "https://" + r by {
      NormalizeGitPlus(r);
    }
    assert '#' !in "https://" + r && '-' !in "https://" + r by {
      HttpsPlain(r);
    }
    CleanupPlain("git+https://" + r + ".git", t, "https://" + r);
  }


  lemma CleanupScp(host: string, path: string, t: Type)
    requires ':' !in host && '#' !in host + path && '-' !in host + path
    ensures CleanupURL("git@" + host + ":" + path + ".git", t) == "https://" + host + "/" + path
  {
    var n := "https://" + host + "/" + path;
    assert NormalizeScheme("git@" + host + ":" + path + ".git") == n by {
      NormalizeScp(host, path);
    }
    assert '#' !in n && '-' !in n by {
      HttpsPlain(host + "/" + path);
    }
    CleanupPlain("git@" + host + ":" + path + ".git", t, n);
  }

  lemma CleanupSsh(r: string, t: Type)
    requires '#' !in r && '-' !in r
    ensures CleanupURL("ssh://git@" + r + ".git", t) == "https://" + r
  {
    assert NormalizeScheme("ssh://git@" + r + ".git") == "https://" + r by {
      NormalizeSsh(r);
    }
    assert '#' !in "https://" + r && '-' !in "https://" + r by {
      HttpsPlain(r);
    }
    CleanupPlain("ssh://git@" + r + ".git", t, "https://" + r);
  }


  lemma CleanupGitProtocol(r: string, t: Type)
    requires !HasPrefix(r, "git@") && !HasPrefix(r, "ssh://") && !HasPrefix(r, "https://")
    requires '#' !in r && '-' !in r
    ensures CleanupURL("git://" + r + ".git", t) == "https://" + r
  {
    assert NormalizeScheme("git://" + r + ".git") == "https://" + r by {
      NormalizeGitProtocol(r);
    }
    assert '#' !in "https://" + r && '-' !in "https://" + r by {
      HttpsPlain(r);
    }
    CleanupPlain("git://" + r + ".git", t, "https://" + r);
  }


  // The rows of api/sourceimpl/util_test.go:11-55 other than the "/-/" one,
  // each URL written as its scheme, its host and path, and its suffix.

  lemma CleanupRowGitHubHttps(t: Type)
    ensures CleanupURL("https://" + "github.com/org/repo" + ".git", t) == "https://" + "github.com/org/repo"
  {
    CleanupHttpsGit("github.com/org/repo", t);
  }

  lemma CleanupRowGitHubGitPlus(t: Type)
    ensures CleanupURL("git+https://" + "github.com/org/repo" + ".git", t) == "https://" + "github.com/org/repo"
  {
    CleanupGitPlus("github.com/org/repo", t);
  }

  lemma CleanupRowGitHubScp(t: Type)
    ensures CleanupURL("git@" + "github.com" + ":" + "org/repo" + ".git", t) == "https://" + "github.com" + "/" + "org/repo"
  {
    CleanupScp("github.com", "org/repo", t);
  }

  lemma CleanupRowGitHubSsh(t: Type)
    ensures CleanupURL("ssh://git@" + "github.com/org/repo" + ".git", t) == "https://" + "github.com/org/repo"
  {
    CleanupSsh("github.com/org/repo", t);
  }

  lemma CleanupRowGitHubGitProtocol(t: Type)
    ensures CleanupURL("git://" + "github.com/org/repo" + ".git", t) == "https://" + "github.com/org/repo"
  {
    var r := "github.com/org/repo";
    NotPrefixAt(r, "git@", 3);
    NotPrefixAt(r, "ssh://", 0);
    NotPrefixAt(r, "https://", 0);
    CleanupGitProtocol(r, t);
  }

  lemma CleanupRowGitLabScp(t: Type)
    ensures CleanupURL("git@" + "gitlab.com" + ":" + "org/repo" + ".git", t) == "https://" + "gitlab.com" + "/" + "org/repo"
  {
    CleanupScp("gitlab.com", "org/repo", t);
  }

  lemma CleanupRowOtherHttps(t: Type)
    ensures CleanupURL("https://" + "gitea.example.com/org/repo" + ".git", t) == "https://" + "gitea.example.com/org/repo"
  {
    CleanupHttpsGit("gitea.example.com/org/repo", t);
  }

  lemma CleanupRowOtherScp(t: Type)
    ensures CleanupURL("git@" + "gitea.example.com" + ":" + "org/repo" + ".git", t) == "https://" + "gitea.example.com" + "/" + "org/repo"
  {
    CleanupScp("gitea.example.com", "org/repo", t);
  }

  lemma HttpsPlain(r: string)
    requires '#' !in r && '-' !in r
    ensures '#' !in "https://" + r && '-' !in "https://" + r
  {
  }

  /** Prefixing "https://" (and a host) keeps a string free of '#' and '-'. */
  lemma PlainConcat(a: string, b: string)
    requires '#' !in a && '-' !in a && '#' !in b && '-' !in b
    ensures '#' !in a + b && '-' !in a + b
  {
  }

  /** For a GitLab URL with one "/-/" marker, Finish collapses the marker. */
  lemma FinishGitLabMarker(head: string, q: string)
    requires HasPrefix(head, "https://")
    requires '#' !in head && '-' !in head && '#' !in q && '-' !in q
    ensures Finish(head + "/-/" + q, GitLab) == head + "/" + q
  {
    var u := head + "/-/" + q;
    assert Contains(u, "/-/") by {
      ContainsAt(u, "/-/", |head|);
    }
    assert ReplaceAll(u, "/-/", "/") == head + "/" + q by {
      CollapseMarker(head, q);
    }
    assert CutAt(u, '#') == u;
  }

  /** ReplaceAll on `head/-/q`, where only the middle marker matches. */
  lemma CollapseMarker(head: string, q: string)
    requires '-' !in head && '-' !in q
    ensures ReplaceAll(head + "/-/" + q, "/-/", "/") == head + "/" + q
  {
    var u := head + "/-/" + q;
    var w := u[|head|..];
    assert w == "/-/" + q;
    assert ReplaceAll(u, "/-/", "/") == head + ReplaceAll(w, "/-/", "/") by {
      assert u[..|head| + 1] == head + "/";
      NoOccurrenceBefore(u, "/-/", |head|, 1);
      ReplaceAllSkip(u, "/-/", "/", |head|);
      assert u[..|head|] == head;
    }
    assert ReplaceAll(w, "/-/", "/") == "/" + q by {
      ReplaceAllHere(w, "/-/", "/");
      assert w[3..] == q;
      NotContainsByChar(q, "/-/", 1);
      ReplaceAllNone(q, "/-/", "/");
    }
  }

  /** cleanupURL on a URL whose normal form is a GitLab URL with one "/-/"
      marker. */
  lemma CleanupGitLabVia(url: string, head: string, q: string)
    requires NormalizeScheme(url) == head + "/-/" + q
    requires DetectSourceTypeFromURL(head + "/-/" + q) == GitLab
    requires HasPrefix(head, "https://")
    requires '#' !in head && '-' !in head && '#' !in q && '-' !in q
    ensures CleanupURL(url, Unknown) == head + "/" + q
  {
    CleanupStages(url, Unknown);
    FinishGitLabMarker(head, q);
  }

  lemma MarkerNormal(p: string, q: string)
    requires |q| >= 4 && !HasSuffix(q, ".git")
    ensures NormalizeScheme("https://gitlab.com/" + p + "/-/" + q) == "https://gitlab.com/" + p + "/-/" + q
  {
    var u := "https://gitlab.com/" + p + "/-/" + q;
    assert u == "https://" + ("gitlab.com/" + p + "/-/" + q);
    assert u[|u| - 4..] == q[|q| - 4..];
    NormalizeHttpsPlain("gitlab.com/" + p + "/-/" + q);
  }

  lemma MarkerDetect(p: string, q: string)
    requires !Contains("https://gitlab.com/" + p + "/-/" + q, "github.com")
    ensures DetectSourceTypeFromURL("https://gitlab.com/" + p + "/-/" + q) == GitLab
  {
    var u := "https://gitlab.com/" + p + "/-/" + q;
    assert u[8..18] == "gitlab.com";
    DetectSwitch(u);
    ContainsAt(u, "gitlab.com", 8);
  }

  lemma GitLabHead(p: string)
    requires '#' !in p && '-' !in p
    ensures HasPrefix("https://gitlab.com/" + p, "https://")
    ensures '#' !in "https://gitlab.com/" + p && '-' !in "https://gitlab.com/" + p
  {
    PlainConcat("https://gitlab.com/", p);
  }

  /** A gitlab.com URL that does not also mention github.com is detected as
      GitLab, and its "/-/" marker collapses to "/". */
  lemma CleanupGitLabMarker(p: string, q: string)
    requires '-' !in p && '#' !in p && '-' !in q && '#' !in q
    requires !Contains("https://gitlab.com/" + p + "/-/" + q, "github.com")
    requires |q| >= 4 && !HasSuffix(q, ".git")
    ensures CleanupURL("https://gitlab.com/" + p + "/-/" + q, Unknown) == "https://gitlab.com/" + p + "/" + q
  {
    MarkerNormal(p, q);
    MarkerDetect(p, q);
    GitLabHead(p);
    CleanupGitLabVia("https://gitlab.com/" + p + "/-/" + q, "https://gitlab.com/" + p, q);
  }

  /** The "/-/" row of the table. */
  lemma CleanupRowGitLabTree()
    ensures CleanupURL("https://gitlab.com/" + "org/repo" + "/-/" + "tree/main", Unknown)
         == "https://gitlab.com/" + "org/repo" + "/" + "tree/main"
  {
    NotSuffixAt("tree/main", ".git", 1);
    NotContainsByChar("https://gitlab.com/" + "org/repo" + "/-/" + "tree/main", "github.com", 4);
    CleanupGitLabMarker("org/repo", "tree/main");
  }
}
