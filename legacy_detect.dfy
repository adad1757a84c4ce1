/** The older detector of package api (api/detect.go): a language hint and a
    package path give a DocSource, which builds its browser URL and picks
    its homepage, repository, registry, documentation and other links from
    its related sources.

    The parsed URLs of net/url are represented by their text: `parses` says
    which texts url.Parse accepts, and a parsed URL is taken to print back
    as the text it came from. */
module LegacyDetect {
  import opened Wrappers
  import opened Strs
  import opened SourceType
  import opened Dedup
  import opened SourceImpl

  /** A related source of the older API: a type (a source type, or the
      homepage or documentation type), a URL, and where it was found. */
  datatype RelatedSource = RelatedSource(kind: Type, url: string, from: string)

  datatype DocSource = DocSource(
    kind: Type, packagePath: string, relatedSources: seq<RelatedSource>, homepage: string)

  /** The language aliases and the source type each stands for. */
  const LanguageAliases: map<string, Type> := map[
    "go" := GoPkgDev, "golang" := GoPkgDev,
    "js" := NPM, "javascript" := NPM, "npm" := NPM, "node" := NPM, "nodejs" := NPM,
    "ts" := NPM, "tsx" := NPM, "typescript" := NPM,
    "jsr" := JSR,
    "rust" := CratesIO, "rs" := CratesIO, "crates" := CratesIO,
    "ruby" := RubyGems, "rb" := RubyGems, "gem" := RubyGems,
    "python" := PyPI, "py" := PyPI, "pypi" := PyPI, "pip" := PyPI,
    "php" := Packagist, "packagist" := Packagist, "composer" := Packagist]

  /** The registries a hint selects outright, with the path unchanged. */
  const HintedRegistries: set<Type> := {JSR, NPM, CratesIO, RubyGems, PyPI, Packagist}

  /** The type a language hint stands for; Unknown for no hint or an
      unrecognised one. */
  function Hint(explicitLang: string): Type {
    if explicitLang != "" && explicitLang in LanguageAliases then LanguageAliases[explicitLang] else Unknown
  }

  /** A repository name that marks a Go module. */
  predicate GoRepositoryName(name: string) {
    HasPrefix(name, "go-") || HasSuffix(name, "-go") || Contains(name, ".go")
  }

  /** Whether the third '/'-separated segment of the path, lowercased, is a
      Go repository name. */
  predicate HasGoRepositoryName(pkgPath: string) {
    var parts := Split(pkgPath, '/');
    |parts| >= 3 && GoRepositoryName(ToLower(parts[2]))
  }

  /** DetectDocSource: the hint of the language, then the path. */
  function DetectDocSource(pkgPath: string, explicitLang: string): DocSource {
    DetectFromHint(pkgPath, Hint(explicitLang), HasGoRepositoryName(pkgPath))
  }

  /** The decision chain of DetectDocSource once the hint is known and the
      repository name has been tested. */
  function DetectFromHint(pkgPath: string, hinted: Type, goName: bool): DocSource {
    if hinted in HintedRegistries then DocSource(hinted, pkgPath, [], "")
    else if hinted == GoPkgDev || HasPrefix(pkgPath, "pkg.go.dev/") then DocSource(GoPkgDev, pkgPath, [], "")
    else if (hinted == GitHub || HasPrefix(pkgPath, "github.com/") || hinted == GitLab || HasPrefix(pkgPath, "gitlab.com/"))
            && goName then DocSource(GoPkgDev, pkgPath, [], "")
    else if HasPrefix(pkgPath, "github.com/") then DocSource(GitHub, TrimPrefix(pkgPath, "github.com/"), [], "")
    else if HasPrefix(pkgPath, "gitlab.com/") then DocSource(GitLab, TrimPrefix(pkgPath, "gitlab.com/"), [], "")
    else DocSource(Unknown, pkgPath, [], "")
  }

  // ---------------------------------------------------------------------
  // GetURL

  /** DocSource.GetURL: the browser URL of the package. lo.Must panics when
      url.Parse rejects it; the model takes every URL built here to parse. */
  function GetURL(ds: DocSource): string
  {
    var p := ds.packagePath;
    match ds.kind
    case GoPkgDev => "https://pkg.go.dev/" + p
    case JSR => "https://jsr.io/" + p
    case NPM => "https://www.npmjs.com/package/" + ReplaceAll(p, "/", "-")
    case CratesIO => "https://crates.io/crates/" + AfterLast(p, '/')
    case RubyGems => "https://rubygems.org/gems/" + AfterLast(p, '/')
    case PyPI => "https://pypi.org/project/" + AfterLast(p, '/')
    case Packagist => "https://packagist.org/packages/" + p
    case GitLab => "https://gitlab.com/" + p
    case _ => if HasPrefix(p, "gitlab.com/") then "https://gitlab.com/" + p else "https://github.com/" + p
  }

  // ---------------------------------------------------------------------
  // The link pickers

  /** The URL of the first source whose type satisfies `want` and whose URL
      parses. */
  function FirstParsed(sources: seq<RelatedSource>, want: Type -> bool, parses: string -> bool): (r: Option<string>)
    ensures r.None? <==> forall i :: 0 <= i < |sources| ==> !(want(sources[i].kind) && parses(sources[i].url))
    ensures r.Some? ==>
              exists i :: 0 <= i < |sources| && want(sources[i].kind) && parses(sources[i].url) &&
                          r.value == sources[i].url &&
                          forall j :: 0 <= j < i ==> !(want(sources[j].kind) && parses(sources[j].url))
  {
    var i := FirstIndexWhere(sources, (s: RelatedSource) => want(s.kind) && parses(s.url));
    if i < |sources| then Some(sources[i].url) else None
  }

  predicate IsHomepageType(t: Type) {
    t == Homepage
  }

  predicate IsRepositoryType(t: Type) {
    t.IsRepository()
  }

  predicate IsRegistryType(t: Type) {
    t.IsRegistry()
  }

  /** The documentation type, or a documentation site. */
  predicate IsDocumentType(t: Type) {
    t == Documentation || t.IsDocumentation()
  }

  /** GetHomepage: the Homepage field when it parses, else the first
      homepage-typed related source that parses. */
  function GetHomepage(ds: DocSource, parses: string -> bool): Option<string> {
    if ds.homepage != "" && parses(ds.homepage) then Some(ds.homepage)
    else FirstParsed(ds.relatedSources, IsHomepageType, parses)
  }

  /** GetRepository: the package's own URL for a repository; else the first
      repository-typed related source that parses; else "https://" + path
      for pkg.go.dev when that parses. */
  function GetRepository(ds: DocSource, parses: string -> bool): Option<string> {
    if ds.kind.IsRepository() then Some(GetURL(ds))
    else
      match FirstParsed(ds.relatedSources, IsRepositoryType, parses)
      case Some(u) => Some(u)
      case None =>
        if ds.kind.ContainRepositoryURL() && parses("https://" + ds.packagePath) then Some("https://" + ds.packagePath)
        else None
  }

  /** GetRegistry: the package's own URL for a registry; else the first
      registry-typed related source, which yields nothing (an error the
      callers drop) when it does not parse: later ones are not tried. */
  function GetRegistry(ds: DocSource, parses: string -> bool): Option<string> {
    if ds.kind.IsRegistry() then Some(GetURL(ds))
    else
      var i := FirstIndexWhere(ds.relatedSources, (s: RelatedSource) => s.kind.IsRegistry());
      if i < |ds.relatedSources| && parses(ds.relatedSources[i].url) then Some(ds.relatedSources[i].url)
      else None
  }

  /** Related sources ordered by URL length, as sort.Slice leaves them;
      the order of equally long URLs is not fixed. */
  predicate ByURLLength(s: seq<RelatedSource>) {
    forall i, j :: 0 <= i < j < |s| ==> |s[i].url| <= |s[j].url|
  }

  predicate IsSortingOf(sorted: seq<RelatedSource>, original: seq<RelatedSource>) {
    multiset(sorted) == multiset(original) && ByURLLength(sorted)
  }

  /** GetDocument, given the related sources in the order its sort leaves
      them: the first documentation source that parses; for a
      documentation site, its own URL when there is none or when that is
      strictly shorter. */
  function GetDocument(ds: DocSource, sorted: seq<RelatedSource>, parses: string -> bool): Option<string> {
    var candidate := FirstParsed(sorted, IsDocumentType, parses);
    if !ds.kind.IsDocumentation() then candidate
    else
      var u := GetURL(ds);
      if candidate.None? || |u| < |candidate.value| then Some(u) else candidate
  }

  // ---------------------------------------------------------------------
  // OtherLinks

  function Members(o: Option<string>): set<string> {
    if o.Some? then {o.value} else {}
  }

  /** The URLs OtherLinks leaves out from the start. GetHomepage,
      GetRepository and GetRegistry run before GetDocument and see the
      related sources in their original order. */
  function Excluded(ds: DocSource, sorted: seq<RelatedSource>, parses: string -> bool): set<string> {
    Members(GetHomepage(ds, parses)) + Members(GetRepository(ds, parses)) +
    Members(GetRegistry(ds, parses)) + Members(GetDocument(ds, sorted, parses))
  }

  function SourceURL(s: RelatedSource): string {
    s.url
  }

  function NotIn(excluded: set<string>): string -> bool {
    (u: string) => u !in excluded
  }

  /** The other links: the related sources in the order GetDocument's sort
      left them (it sorts the slice OtherLinks iterates, which shares its
      array), first of each URL, none with an excluded URL. */
  function OtherLinksOf(ds: DocSource, sorted: seq<RelatedSource>, parses: string -> bool): seq<RelatedSource> {
    KeepFirst(sorted, SourceURL, NotIn(Excluded(ds, sorted, parses)))
  }

  /** The first half of OtherLinks: the seen set before the loop. */
  method ExcludedURLs(ds: DocSource, sorted: seq<RelatedSource>, parses: string -> bool)
    returns (seen: set<string>)
    ensures seen == Excluded(ds, sorted, parses)
  {
    seen := {};
    var homepage := GetHomepage(ds, parses);
    var repository := GetRepository(ds, parses);
    var registry := GetRegistry(ds, parses);
    var docs := GetDocument(ds, sorted, parses);
    if homepage.Some? {
      seen := seen + {homepage.value};
    }
    if repository.Some? {
      seen := seen + {repository.value};
    }
    if registry.Some? {
      seen := seen + {registry.value};
    }
    if docs.Some? {
      seen := seen + {docs.value};
    }
  }

  /** The loop of OtherLinks: each source whose URL is not yet seen is
      kept, and its URL becomes seen. */
  method KeepUnseen(sorted: seq<RelatedSource>, excluded: set<string>) returns (links: seq<RelatedSource>)
    ensures links == KeepFirst(sorted, SourceURL, NotIn(excluded))
  {
    var seen := excluded;
    links := [];
    for i := 0 to |sorted|
      invariant links == KeepFirst(sorted[..i], SourceURL, NotIn(excluded))
      invariant seen == excluded + SeenKeys(links, SourceURL)
    {
      var source := sorted[i];
      assert sorted[..i + 1] == sorted[..i] + [source];
      KeepFirstSnoc(sorted[..i], source, SourceURL, NotIn(excluded));
      if source.url !in seen {
        SeenKeysSnoc(links, source, SourceURL);
        links := links + [source];
        seen := seen + {source.url};
      }
    }
    assert sorted[..|sorted|] == sorted;
  }

  /** OtherLinks. */
  method OtherLinks(ds: DocSource, sorted: seq<RelatedSource>, parses: string -> bool)
    returns (links: seq<RelatedSource>)
    ensures links == OtherLinksOf(ds, sorted, parses)
  {
    var seen := ExcludedURLs(ds, sorted, parses);
    links := KeepUnseen(sorted, seen);
  }

  // ---------------------------------------------------------------------
  // Properties of DetectDocSource

  /** A hint stands for a registry or for pkg.go.dev, never for a
      repository host; it stands for nothing exactly when it is not an
      alias. */
  lemma HintRange(explicitLang: string)
    ensures Hint(explicitLang) in HintedRegistries + {GoPkgDev, Unknown}
    ensures Hint(explicitLang) != Unknown <==> explicitLang in LanguageAliases
  {
    assert "" !in LanguageAliases;
    assert forall k :: k in LanguageAliases ==> LanguageAliases[k] in HintedRegistries + {GoPkgDev};
  }

  /** A hint for a registry other than pkg.go.dev decides the type and
      keeps the path. */
  lemma DetectHinted(pkgPath: string, explicitLang: string)
    requires Hint(explicitLang) in HintedRegistries
    ensures DetectDocSource(pkgPath, explicitLang) == DocSource(Hint(explicitLang), pkgPath, [], "")
  {
  }

  /** The Go hint, or a pkg.go.dev path, gives pkg.go.dev with the path
      unchanged. */
  lemma DetectGo(pkgPath: string, explicitLang: string)
    requires Hint(explicitLang) !in HintedRegistries
    requires Hint(explicitLang) == GoPkgDev || HasPrefix(pkgPath, "pkg.go.dev/")
    ensures DetectDocSource(pkgPath, explicitLang) == DocSource(GoPkgDev, pkgPath, [], "")
  {
  }

  /** Without a hint, a github.com/ or gitlab.com/ path goes to pkg.go.dev
      when its repository name marks a Go module, and to the host, without
      the host prefix, otherwise. */
  lemma DetectRepositoryPath(pkgPath: string, explicitLang: string)
    requires Hint(explicitLang) == Unknown && !HasPrefix(pkgPath, "pkg.go.dev/")
    requires HasPrefix(pkgPath, "github.com/") || HasPrefix(pkgPath, "gitlab.com/")
    ensures HasGoRepositoryName(pkgPath) ==> DetectDocSource(pkgPath, explicitLang) == DocSource(GoPkgDev, pkgPath, [], "")
    ensures !HasGoRepositoryName(pkgPath) && HasPrefix(pkgPath, "github.com/") ==>
              DetectDocSource(pkgPath, explicitLang) == DocSource(GitHub, pkgPath[|"github.com/"|..], [], "")
    ensures !HasGoRepositoryName(pkgPath) && HasPrefix(pkgPath, "gitlab.com/") ==>
              DetectDocSource(pkgPath, explicitLang) == DocSource(GitLab, pkgPath[|"gitlab.com/"|..], [], "")
  {
    RepositoryPathFromHint(pkgPath, HasGoRepositoryName(pkgPath));
  }

  lemma RepositoryPathFromHint(pkgPath: string, goName: bool)
    requires !HasPrefix(pkgPath, "pkg.go.dev/")
    requires HasPrefix(pkgPath, "github.com/") || HasPrefix(pkgPath, "gitlab.com/")
    ensures goName ==> DetectFromHint(pkgPath, Unknown, goName) == DocSource(GoPkgDev, pkgPath, [], "")
    ensures !goName && HasPrefix(pkgPath, "github.com/") ==>
              DetectFromHint(pkgPath, Unknown, goName) == DocSource(GitHub, pkgPath[|"github.com/"|..], [], "")
    ensures !goName && HasPrefix(pkgPath, "gitlab.com/") ==>
              DetectFromHint(pkgPath, Unknown, goName) == DocSource(GitLab, pkgPath[|"gitlab.com/"|..], [], "")
  {
    if HasPrefix(pkgPath, "github.com/") {
      NotPrefixAt(pkgPath, "gitlab.com/", 3);
    }
  }

  /** Anything else is Unknown with the path unchanged: detection never
      fails. */
  lemma DetectFallback(pkgPath: string, explicitLang: string)
    requires Hint(explicitLang) == Unknown
    requires !HasPrefix(pkgPath, "pkg.go.dev/") && !HasPrefix(pkgPath, "github.com/") && !HasPrefix(pkgPath, "gitlab.com/")
    ensures DetectDocSource(pkgPath, explicitLang) == DocSource(Unknown, pkgPath, [], "")
  {
  }

  /** Every detected source has no related sources and no homepage; its
      path is the input, or the input without the host prefix for GitHub
      and GitLab. */
  lemma DetectShape(pkgPath: string, explicitLang: string)
    ensures var r := DetectDocSource(pkgPath, explicitLang);
            r.relatedSources == [] && r.homepage == "" &&
            r.kind in HintedRegistries + {GoPkgDev, GitHub, GitLab, Unknown} &&
            (r.kind == GitHub ==> pkgPath == "github.com/" + r.packagePath) &&
            (r.kind == GitLab ==> pkgPath == "gitlab.com/" + r.packagePath) &&
            (!r.kind.IsRepository() ==> r.packagePath == pkgPath)
  {
    HintRange(explicitLang);
    ShapeFromHint(pkgPath, Hint(explicitLang), HasGoRepositoryName(pkgPath));
  }

  lemma ShapeFromHint(pkgPath: string, hinted: Type, goName: bool)
    requires hinted in HintedRegistries + {GoPkgDev, Unknown}
    ensures var r := DetectFromHint(pkgPath, hinted, goName);
            r.relatedSources == [] && r.homepage == "" &&
            r.kind in HintedRegistries + {GoPkgDev, GitHub, GitLab, Unknown} &&
            (r.kind == GitHub ==> pkgPath == "github.com/" + r.packagePath) &&
            (r.kind == GitLab ==> pkgPath == "gitlab.com/" + r.packagePath) &&
            (!r.kind.IsRepository() ==> r.packagePath == pkgPath)
  {
  }

  /** The browser URL of a detected source points back at the path: a
      repository path gets "https://" in front, a Go path the pkg.go.dev
      prefix. */
  lemma DetectedURL(pkgPath: string, explicitLang: string)
    ensures var r := DetectDocSource(pkgPath, explicitLang);
            (r.kind == GitLab ==> GetURL(r) == "https://" + pkgPath) &&
            (r.kind == GitHub && !HasPrefix(r.packagePath, "gitlab.com/") ==> GetURL(r) == "https://" + pkgPath) &&
            (r.kind == GoPkgDev ==> GetURL(r) == "https://pkg.go.dev/" + pkgPath)
  {
    DetectShape(pkgPath, explicitLang);
    ShapeURL(pkgPath, DetectDocSource(pkgPath, explicitLang));
  }

  lemma ShapeURL(pkgPath: string, r: DocSource)
    requires r.kind == GitHub ==> pkgPath == "github.com/" + r.packagePath
    requires r.kind == GitLab ==> pkgPath == "gitlab.com/" + r.packagePath
    requires !r.kind.IsRepository() ==> r.packagePath == pkgPath
    ensures r.kind == GitLab ==> GetURL(r) == "https://" + pkgPath
    ensures r.kind == GitHub && !HasPrefix(r.packagePath, "gitlab.com/") ==> GetURL(r) == "https://" + pkgPath
    ensures r.kind == GoPkgDev ==> GetURL(r) == "https://pkg.go.dev/" + pkgPath
  {
    if r.kind == GitHub {
      assert "https://github.com/" + r.packagePath == "https://" + ("github.com/" + r.packagePath);
    } else if r.kind == GitLab {
      assert "https://gitlab.com/" + r.packagePath == "https://" + ("gitlab.com/" + r.packagePath);
    }
  }

  /** The segments of host + "/" + owner + "/" + name. */
  lemma RepositorySegments(host: string, owner: string, name: string)
    requires '/' !in host && '/' !in owner && '/' !in name
    ensures Split(host + "/" + owner + "/" + name, '/') == [host, owner, name]
  {
    assert host + "/" + owner + "/" + name == host + ['/'] + (owner + ['/'] + name);
    SplitCons(host, '/', owner + ['/'] + name);
    SplitCons(owner, '/', name);
    SplitNoSep(name, '/');
  }

  /** Without a hint, "github.com/owner/name" is a Go module exactly when
      the lower-case name is a Go repository name, and a GitHub repository
      "owner/name" otherwise. */
  lemma DetectGitHubOwnerName(owner: string, name: string, explicitLang: string)
    requires Hint(explicitLang) == Unknown
    requires '/' !in owner && '/' !in name
    ensures var p := "github.com/" + owner + "/" + name;
            DetectDocSource(p, explicitLang) ==
              if GoRepositoryName(ToLower(name)) then DocSource(GoPkgDev, p, [], "")
              else DocSource(GitHub, owner + "/" + name, [], "")
  {
    var rest := owner + "/" + name;
    var p := "github.com/" + rest;
    Regroup("github.com/", owner, "/", name, []);
    GitHubPath(rest);
    var goName := GoRepositoryName(ToLower(name));
    GitHubGoName(owner, name);
    RepositoryPathFromHint(p, goName);
  }

  /** A path under "github.com/" is not one under "pkg.go.dev/". */
  lemma GitHubPath(rest: string)
    ensures var p := "github.com/" + rest;
            HasPrefix(p, "github.com/") && p[|"github.com/"|..] == rest && !HasPrefix(p, "pkg.go.dev/")
  {
    var p := "github.com/" + rest;
    NotPrefixAt(p, "pkg.go.dev/", 0);
  }

  lemma GitHubGoName(owner: string, name: string)
    requires '/' !in owner && '/' !in name
    ensures HasGoRepositoryName("github.com/" + owner + "/" + name) == GoRepositoryName(ToLower(name))
  {
    GitHubHostSegment();
    SegmentGoName("github.com", owner, name);
  }

  /** "github.com" is one path segment. */
  lemma GitHubHostSegment()
    ensures '/' !in "github.com" && "github.com/" == "github.com" + "/"
  {
  }

  lemma SegmentGoName(host: string, owner: string, name: string)
    requires '/' !in host && '/' !in owner && '/' !in name
    ensures HasGoRepositoryName(host + "/" + owner + "/" + name) == GoRepositoryName(ToLower(name))
  {
    RepositorySegments(host, owner, name);
  }

  /** "github.com/acme/foo-go" is a Go module. */
  lemma DetectGoSuffixExample()
    ensures DetectDocSource("github.com/acme/foo-go", "") == DocSource(GoPkgDev, "github.com/acme/foo-go", [], "")
  {
    assert "github.com/" + "acme" + "/" + "foo-go" == "github.com/acme/foo-go";
    ToLowerIdentity("foo-go");
    assert HasSuffix("foo-go", "-go");
    DetectGitHubOwnerName("acme", "foo-go", "");
  }

  /** "github.com/acme/foo" is a GitHub repository. */
  lemma DetectGitHubExample()
    ensures DetectDocSource("github.com/acme/foo", "") == DocSource(GitHub, "acme/foo", [], "")
  {
    assert "github.com/" + "acme" + "/" + "foo" == "github.com/acme/foo";
    assert "acme" + "/" + "foo" == "acme/foo";
    PlainName();
    DetectGitHubOwnerName("acme", "foo", "");
  }

  lemma PlainName()
    ensures !GoRepositoryName(ToLower("foo"))
  {
    ToLowerIdentity("foo");
    NotPrefixAt("foo", "go-", 0);
    NotSuffixAt("foo", "-go", 3);
    NotContainsByChar("foo", ".go", 0);
  }

  // ---------------------------------------------------------------------
  // Properties of GetURL

  /** npm names have every '/' replaced by '-'. */
  lemma {:induction false} ReplaceSlashes(s: string)
    ensures '/' !in ReplaceAll(s, "/", "-")
    decreases |s|
  {
    if |s| >= 1 {
      if "/" <= s {
        ReplaceSlashes(s[1..]);
      } else {
        assert s[0] != '/';
        ReplaceSlashes(s[1..]);
      }
    }
  }

  /** The package part of the browser URL: flat for npm, the last segment
      for crates.io, RubyGems and PyPI. */
  lemma GetURLNames(ds: DocSource)
    ensures ds.kind == NPM ==>
              exists name :: '/' !in name && GetURL(ds) == "https://www.npmjs.com/package/" + name
    ensures ds.kind in {CratesIO, RubyGems, PyPI} ==>
              GetURL(ds) == GetURL(ds.(packagePath := AfterLast(ds.packagePath, '/')))
  {
    if ds.kind == NPM {
      ReplaceSlashes(ds.packagePath);
    }
  }

  /** Types without a case of their own get a GitHub URL, or a GitLab one
      for a path that starts with "gitlab.com/" (which keeps that prefix). */
  lemma GetURLDefault(ds: DocSource)
    requires ds.kind !in {GoPkgDev, JSR, NPM, CratesIO, RubyGems, PyPI, Packagist, GitLab}
    ensures GetURL(ds) == if HasPrefix(ds.packagePath, "gitlab.com/") then "https://gitlab.com/" + ds.packagePath
                          else "https://github.com/" + ds.packagePath
  {
  }

  // ---------------------------------------------------------------------
  // Properties of the link pickers

  /** The Homepage field wins when it parses; otherwise the first
      homepage-typed related source that parses; nothing when neither
      exists. */
  lemma HomepageChoice(ds: DocSource, parses: string -> bool)
    ensures ds.homepage != "" && parses(ds.homepage) ==> GetHomepage(ds, parses) == Some(ds.homepage)
    ensures GetHomepage(ds, parses).None? <==>
              !(ds.homepage != "" && parses(ds.homepage)) &&
              forall i :: 0 <= i < |ds.relatedSources| ==>
                !(ds.relatedSources[i].kind == Homepage && parses(ds.relatedSources[i].url))
  {
  }

  /** A repository's own URL is its repository; otherwise the first
      repository source that parses, and pkg.go.dev falls back to its path
      as a URL. */
  lemma RepositoryChoice(ds: DocSource, parses: string -> bool)
    ensures ds.kind.IsRepository() ==> GetRepository(ds, parses) == Some(GetURL(ds))
    ensures !ds.kind.IsRepository() &&
            (forall i :: 0 <= i < |ds.relatedSources| ==>
               !(ds.relatedSources[i].kind.IsRepository() && parses(ds.relatedSources[i].url))) ==>
              GetRepository(ds, parses) ==
                if ds.kind == GoPkgDev && parses("https://" + ds.packagePath) then Some("https://" + ds.packagePath) else None
  {
    if !ds.kind.IsRepository() &&
       (forall i :: 0 <= i < |ds.relatedSources| ==>
          !(ds.relatedSources[i].kind.IsRepository() && parses(ds.relatedSources[i].url))) {
      assert FirstParsed(ds.relatedSources, IsRepositoryType, parses).None?;
    }
  }

  /** Outside a registry, only the first registry-typed related source is
      looked at: when it does not parse there is no registry, even if a
      later one would. */
  lemma RegistryChoice(ds: DocSource, parses: string -> bool, i: nat)
    requires !ds.kind.IsRegistry()
    requires i < |ds.relatedSources| && ds.relatedSources[i].kind.IsRegistry()
    requires forall j :: 0 <= j < i ==> !ds.relatedSources[j].kind.IsRegistry()
    ensures GetRegistry(ds, parses) ==
              if parses(ds.relatedSources[i].url) then Some(ds.relatedSources[i].url) else None
  {
    var k := FirstIndexWhere(ds.relatedSources, (s: RelatedSource) => s.kind.IsRegistry());
    assert k == i;
  }

  /** After the sort, the first documentation source that parses has the
      shortest URL of all of them, whichever way ties were ordered. */
  lemma ShortestDocument(ds: DocSource, sorted: seq<RelatedSource>, parses: string -> bool)
    requires IsSortingOf(sorted, ds.relatedSources)
    ensures var c := FirstParsed(sorted, IsDocumentType, parses);
            (c.Some? <==> exists x :: x in ds.relatedSources && IsDocumentType(x.kind) && parses(x.url)) &&
            (c.Some? ==>
               (exists x :: x in ds.relatedSources && IsDocumentType(x.kind) && parses(x.url) && x.url == c.value) &&
               forall y :: y in ds.relatedSources && IsDocumentType(y.kind) && parses(y.url) ==> |c.value| <= |y.url|)
  {
    var c := FirstParsed(sorted, IsDocumentType, parses);
    SortingSameMembers(sorted, ds.relatedSources);
    if c.Some? {
      var i :| 0 <= i < |sorted| && IsDocumentType(sorted[i].kind) && parses(sorted[i].url) &&
               c.value == sorted[i].url &&
               forall j :: 0 <= j < i ==> !(IsDocumentType(sorted[j].kind) && parses(sorted[j].url));
      assert sorted[i] in ds.relatedSources;
      forall y | y in ds.relatedSources && IsDocumentType(y.kind) && parses(y.url)
        ensures |c.value| <= |y.url|
      {
        var j :| 0 <= j < |sorted| && sorted[j] == y;
        assert !(j < i);
      }
    } else {
      forall x | x in ds.relatedSources
        ensures !(IsDocumentType(x.kind) && parses(x.url))
      {
        var j :| 0 <= j < |sorted| && sorted[j] == x;
      }
    }
  }

  /** A sorting holds the same related sources as the original. */
  lemma SortingSameMembers(sorted: seq<RelatedSource>, original: seq<RelatedSource>)
    requires multiset(sorted) == multiset(original)
    ensures forall x :: x in original <==> x in sorted
  {
    forall x
      ensures x in original <==> x in sorted
    {
      assert x in multiset(sorted) <==> x in multiset(original);
    }
  }

  /** A documentation site always has a documentation URL, no longer than
      its own URL nor than any parsing documentation source; it is its own
      URL or one of those. */
  lemma DocumentOfSite(ds: DocSource, sorted: seq<RelatedSource>, parses: string -> bool)
    requires IsSortingOf(sorted, ds.relatedSources) && ds.kind.IsDocumentation()
    ensures var d := GetDocument(ds, sorted, parses);
            d.Some? && |d.value| <= |GetURL(ds)| &&
            (d.value == GetURL(ds) ||
             exists x :: x in ds.relatedSources && IsDocumentType(x.kind) && parses(x.url) && x.url == d.value) &&
            forall y :: y in ds.relatedSources && IsDocumentType(y.kind) && parses(y.url) ==> |d.value| <= |y.url|
  {
    ShortestDocument(ds, sorted, parses);
  }

  // ---------------------------------------------------------------------
  // Properties of OtherLinks

  /** The other links have pairwise distinct URLs. */
  lemma OtherLinksDistinct(ds: DocSource, sorted: seq<RelatedSource>, parses: string -> bool)
    ensures var r := OtherLinksOf(ds, sorted, parses);
            forall k1, k2 :: 0 <= k1 < k2 < |r| ==> r[k1].url != r[k2].url
  {
    KeepFirstDistinct(sorted, SourceURL, NotIn(Excluded(ds, sorted, parses)));
  }

  /** Every other link is a related source whose URL is not excluded. */
  lemma OtherLinksFrom(ds: DocSource, sorted: seq<RelatedSource>, parses: string -> bool)
    requires IsSortingOf(sorted, ds.relatedSources)
    ensures forall x :: x in OtherLinksOf(ds, sorted, parses) ==>
              x in ds.relatedSources && x.url !in Excluded(ds, sorted, parses)
  {
    var e := Excluded(ds, sorted, parses);
    KeepFirstFrom(sorted, SourceURL, NotIn(e));
    forall x | x in OtherLinksOf(ds, sorted, parses)
      ensures x in ds.relatedSources
    {
      assert x in multiset(sorted);
    }
  }

  /** Every related source whose URL is not excluded has its URL among the
      other links. */
  lemma OtherLinksComplete(ds: DocSource, sorted: seq<RelatedSource>, parses: string -> bool)
    requires IsSortingOf(sorted, ds.relatedSources)
    ensures var r := OtherLinksOf(ds, sorted, parses);
            forall x :: x in ds.relatedSources && x.url !in Excluded(ds, sorted, parses) ==>
              exists k :: 0 <= k < |r| && r[k].url == x.url
  {
    var e := Excluded(ds, sorted, parses);
    var r := OtherLinksOf(ds, sorted, parses);
    forall x | x in ds.relatedSources && x.url !in e
      ensures exists k :: 0 <= k < |r| && r[k].url == x.url
    {
      assert x in multiset(sorted);
      var j :| 0 <= j < |sorted| && sorted[j] == x;
      SeenKeysExactly(sorted, SourceURL, NotIn(e), x.url);
      assert SourceURL(sorted[j]) == x.url;
      assert x.url in SeenKeys(r, SourceURL);
    }
  }

  /** Because the sort of GetDocument reorders the slice the other links
      are read from, they come shortest URL first. */
  lemma OtherLinksByLength(ds: DocSource, sorted: seq<RelatedSource>, parses: string -> bool)
    requires IsSortingOf(sorted, ds.relatedSources)
    ensures ByURLLength(OtherLinksOf(ds, sorted, parses))
  {
    var e := Excluded(ds, sorted, parses);
    var r := OtherLinksOf(ds, sorted, parses);
    KeepFirstSubsequence(sorted, SourceURL, NotIn(e));
    var idx := KeptIndices(sorted, SourceURL, NotIn(e));
    forall k1, k2 | 0 <= k1 < k2 < |r|
      ensures |r[k1].url| <= |r[k2].url|
    {
      assert idx[k1] < idx[k2];
    }
  }
}
