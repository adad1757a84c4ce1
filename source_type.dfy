/** The kinds of documentation source (api/source/type.go) and the four
    classification predicates over them. Go's `Type` is a string type; every
    value the pipeline produces is one of the twelve named constants, so the
    model uses a closed enumeration and keeps the strings in `Name`. */
module SourceType {

  datatype Type =
    | GoPkgDev
    | JSR
    | NPM
    | CratesIO
    | RubyGems
    | PyPI
    | Packagist
    | GitHub
    | GitLab
    | Documentation
    | Homepage
    | Unknown
  {
    /** The string value of the Go constant. */
    function Name(): string {
      match this
      case GoPkgDev => "pkg.go.dev"
      case JSR => "jsr.io"
      case NPM => "npmjs.com"
      case CratesIO => "crates.io"
      case RubyGems => "rubygems.org"
      case PyPI => "pypi.org"
      case Packagist => "packagist.org"
      case GitHub => "github.com"
      case GitLab => "gitlab.com"
      case Documentation => "documentation"
      case Homepage => "homepage"
      case Unknown => ""
    }

    predicate IsRegistry() {
      match this
      case GoPkgDev | JSR | NPM | CratesIO | RubyGems | PyPI | Packagist => true
      case _ => false
    }

    predicate IsRepository() {
      match this
      case GitHub | GitLab => true
      case _ => false
    }

    predicate IsDocumentation() {
      match this
      case GoPkgDev | JSR => true
      case _ => false
    }

    predicate ContainRepositoryURL() {
      match this
      case GitHub | GitLab | GoPkgDev => true
      case _ => false
    }
  }

  /** Every source type; the crawl's termination argument counts against it. */
  const AllTypes: set<Type> := {GoPkgDev, JSR, NPM, CratesIO, RubyGems, PyPI, Packagist,
                                GitHub, GitLab, Documentation, Homepage, Unknown}

  lemma AllTypesComplete(t: Type)
    ensures t in AllTypes
  {
  }

  lemma AllTypesCount()
    ensures |AllTypes| == 12
  {
  }

  /** The string values are pairwise distinct, so Name loses nothing. */
  lemma NameInjective(a: Type, b: Type)
    ensures a.Name() == b.Name() <==> a == b
  {
  }

  lemma RegistryExactly(t: Type)
    ensures t.IsRegistry() <==> t in {GoPkgDev, JSR, NPM, CratesIO, RubyGems, PyPI, Packagist}
  {
  }

  lemma RepositoryExactly(t: Type)
    ensures t.IsRepository() <==> t in {GitHub, GitLab}
  {
  }

  /** Documentation registries are registries. */
  lemma DocumentationIsRegistry(t: Type)
    ensures t.IsDocumentation() <==> t in {GoPkgDev, JSR}
    ensures t.IsDocumentation() ==> t.IsRegistry()
  {
  }

  lemma RegistryNotRepository(t: Type)
    ensures !(t.IsRegistry() && t.IsRepository())
  {
  }

  lemma ContainRepositoryURLExactly(t: Type)
    ensures t.ContainRepositoryURL() <==> t.IsRepository() || t == GoPkgDev
  {
  }

  /** Homepage, documentation and unknown satisfy none of the predicates. */
  lemma NonPackageTypes(t: Type)
    requires t in {Homepage, Documentation, Unknown}
    ensures !t.IsRegistry() && !t.IsRepository() && !t.IsDocumentation() && !t.ContainRepositoryURL()
  {
  }
}
