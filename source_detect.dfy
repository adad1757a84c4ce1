/** URL sniffing (api/source/detect.go): the source type of a URL is decided
    by the first host name, in a fixed order, that occurs anywhere in it. */
module SourceDetect {
  import opened Strs
  import opened SourceType

  /** The host names in the order the switch tests them, with their types. */
  const HostTable: seq<(string, Type)> := [
    ("github.com", GitHub), ("gitlab.com", GitLab), ("rubygems.org", RubyGems),
    ("npmjs.com", NPM), ("jsr.io", JSR), ("pkg.go.dev", GoPkgDev),
    ("crates.io", CratesIO), ("packagist.org", Packagist)]

  /** The type of the first table row whose host occurs in the URL, or
      Unknown. */
  function FirstHostMatch(url: string, table: seq<(string, Type)>): (r: Type)
    ensures r == Unknown || exists i :: 0 <= i < |table| && r == table[i].1
  {
    if |table| == 0 then Unknown
    else if Contains(url, table[0].0) then table[0].1
    else FirstHostMatch(url, table[1..])
  }

  function DetectSourceTypeFromURL(url: string): Type {
    FirstHostMatch(url, HostTable)
  }

  /** The search over the table is exactly the switch of
      api/source/detect.go, case by case. */
  lemma {:induction false} DetectSwitch(url: string)
    ensures DetectSourceTypeFromURL(url) ==
      if Contains(url, "github.com") then GitHub
      else if Contains(url, "gitlab.com") then GitLab
      else if Contains(url, "rubygems.org") then RubyGems
      else if Contains(url, "npmjs.com") then NPM
      else if Contains(url, "jsr.io") then JSR
      else if Contains(url, "pkg.go.dev") then GoPkgDev
      else if Contains(url, "crates.io") then CratesIO
      else if Contains(url, "packagist.org") then Packagist
      else Unknown
  {
    var t := HostTable;
    assert FirstHostMatch(url, t[8..]) == Unknown;
    assert FirstHostMatch(url, t[7..]) == if Contains(url, "packagist.org") then Packagist else FirstHostMatch(url, t[8..]);
    assert FirstHostMatch(url, t[6..]) == if Contains(url, "crates.io") then CratesIO else FirstHostMatch(url, t[7..]);
    assert FirstHostMatch(url, t[5..]) == if Contains(url, "pkg.go.dev") then GoPkgDev else FirstHostMatch(url, t[6..]);
    assert FirstHostMatch(url, t[4..]) == if Contains(url, "jsr.io") then JSR else FirstHostMatch(url, t[5..]);
    assert FirstHostMatch(url, t[3..]) == if Contains(url, "npmjs.com") then NPM else FirstHostMatch(url, t[4..]);
    assert FirstHostMatch(url, t[2..]) == if Contains(url, "rubygems.org") then RubyGems else FirstHostMatch(url, t[3..]);
    assert FirstHostMatch(url, t[1..]) == if Contains(url, "gitlab.com") then GitLab else FirstHostMatch(url, t[2..]);
  }

  /** The result is Unknown exactly when no host name occurs. */
  lemma DetectUnknownIff(url: string)
    ensures DetectSourceTypeFromURL(url) == Unknown <==>
      forall i :: 0 <= i < |HostTable| ==> !Contains(url, HostTable[i].0)
  {
    DetectSwitch(url);
    var h := HostTable;
    if DetectSourceTypeFromURL(url) == Unknown {
      forall i | 0 <= i < |h|
        ensures !Contains(url, h[i].0)
      {
        assert i in {0, 1, 2, 3, 4, 5, 6, 7};
      }
    } else {
      assert h[0].0 == "github.com" && h[1].0 == "gitlab.com" && h[2].0 == "rubygems.org"
          && h[3].0 == "npmjs.com" && h[4].0 == "jsr.io" && h[5].0 == "pkg.go.dev"
          && h[6].0 == "crates.io" && h[7].0 == "packagist.org";
    }
  }

  /** Python, homepage and documentation are never detected. */
  lemma DetectNeverNonHostTypes(url: string)
    ensures DetectSourceTypeFromURL(url) !in {PyPI, Homepage, Documentation}
  {
    DetectSwitch(url);
  }

  /** The detected type is a repository exactly for GitHub and GitLab URLs. */
  lemma DetectRepositoryIff(url: string)
    ensures DetectSourceTypeFromURL(url).IsRepository() <==>
      Contains(url, "github.com") || Contains(url, "gitlab.com")
  {
    DetectSwitch(url);
  }

  /** Anything detected other than Unknown is a registry or a repository. */
  lemma DetectKnownIsPackageSource(url: string)
    ensures DetectSourceTypeFromURL(url) != Unknown ==>
      DetectSourceTypeFromURL(url).IsRegistry() || DetectSourceTypeFromURL(url).IsRepository()
  {
    DetectSwitch(url);
  }
}
