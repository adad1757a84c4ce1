/** FetchWithCache (api/sourceimpl/cache.go): an investigator's fetch routed
    through a fresh "fetch" cache in the default directory. The investigator's
    own Fetch is abstract here: its outcome for this call is the parameter
    `fetched`. */
module FetchCache {
  import opened Wrappers
  import opened Errors
  import opened Strs
  import opened SourceType
  import opened SourceData
  import opened Resolver
  import opened Cache

  /** The cache kind every fetch uses. */
  const FetchKind := "fetch"

  /** The cache key: "<source type>:<package path>". */
  function CacheKey(inv: Investigator, packagePath: string): (k: string)
    ensures k == GetSourceType(inv).Name() + ":" + packagePath
    ensures HasSuffix(k, ":" + packagePath)
  {
    var k := GetSourceType(inv).Name() + ":" + packagePath;
    assert k[|k| - |":" + packagePath|..] == ":" + packagePath;
    k
  }

  /** Two fetches share a cache file only if their keys normalise alike;
      in particular, the same type and path always share one. */
  lemma SameKeySamePath(inv1: Investigator, inv2: Investigator, p: string, dir: string)
    requires GetSourceType(inv1) == GetSourceType(inv2)
    ensures EntryPath(dir, CacheKey(inv1, p), FetchKind) == EntryPath(dir, CacheKey(inv2, p), FetchKind)
  {
  }

  /** The outcome of FetchWithCache on a given disk. */
  function FetchOutcome(files: map<string, Option<Entry<Data>>>, defaultDir: string, inv: Investigator,
                        packagePath: string, forceUpdate: bool, fetched: Result<Data, Error>,
                        now: int, save: SaveStep): Outcome<Data>
  {
    GetOrSetSpec(files, EntryPath(defaultDir, CacheKey(inv, packagePath), FetchKind), DefaultTTL,
                 fetched, forceUpdate, now, ZeroData, save)
  }

  /** FetchWithCache: a new cache of kind "fetch", then GetOrSet with the
      investigator's fetch as generator; its result is returned as is. */
  method FetchWithCache(disk: Disk<Data>, defaultDir: string, inv: Investigator, packagePath: string,
                        forceUpdate: bool, fetched: Result<Data, Error>, now: int, save: SaveStep)
    returns (data: Data, err: Option<Error>)
    modifies disk
    ensures var o := FetchOutcome(old(disk.files), defaultDir, inv, packagePath, forceUpdate, fetched, now, save);
            data == o.value && err == o.err && disk.files == o.files
  {
    var cacheKey := GetSourceType(inv).Name() + ":" + packagePath;
    var c := new Cache<Data>(FetchKind, defaultDir, disk);
    var called;
    data, err, called := c.GetOrSet(cacheKey, fetched, forceUpdate, now, ZeroData, save);
  }

  /** Forcing an update always uses the investigator's result: a failure is
      reported with Go's zero Data, a success is returned (with the save
      error, if writing the cache file failed). */
  lemma ForcedFetchUsesInvestigator(files: map<string, Option<Entry<Data>>>, defaultDir: string,
                                    inv: Investigator, packagePath: string, fetched: Result<Data, Error>,
                                    now: int, save: SaveStep)
    ensures var o := FetchOutcome(files, defaultDir, inv, packagePath, true, fetched, now, save);
            o.called &&
            (fetched.Failure? ==> o.value == ZeroData && o.err == Some(fetched.error)) &&
            (fetched.Success? ==> o.value == fetched.value &&
                                  (o.err == None <==> save.Saved?))
  {
  }
}
