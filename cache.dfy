/** The file-backed TTL cache of api/cache/cache.go. The cache directory is a
    `Disk` object shared by every `Cache` instance, holding the decoded gob
    files by path; a file that exists but cannot be decoded is stored as
    `None`. The clock reading and whether writing a file fails are passed in
    as parameters. */
module Cache {
  import opened Wrappers
  import opened Errors
  import opened Strs

  /** CACHE_VERSION, the name of the current cache sub-directory. */
  const CacheVersion := "v1"

  /** DefaultTTL, 24 hours, in nanoseconds like Go's time.Duration. */
  const DefaultTTL: int := 24 * 60 * 60 * 1000000000

  /** A cached value and the time it was stored. */
  datatype Entry<T> = Entry(value: T, createdAt: int)

  /** The cache files on disk, by path. */
  class Disk<T> {
    var files: map<string, Option<Entry<T>>>

    constructor(files: map<string, Option<Entry<T>>>)
      ensures this.files == files
    {
      this.files := files;
    }
  }

  // ---------------------------------------------------------------------
  // normalizeKey

  /** The characters a cache key may keep: [a-zA-Z0-9-_./]. */
  predicate AllowedChar(c: char) {
    ('a' <= c <= 'z') || ('A' <= c <= 'Z') || ('0' <= c <= '9')
    || c == '-' || c == '_' || c == '.' || c == '/'
  }

  predicate AllAllowed(s: string) {
    forall i :: 0 <= i < |s| ==> AllowedChar(s[i])
  }

  /** The strings.Map step: every character that is not allowed becomes '_'. */
  function MapKeyChars(key: string): (r: string)
    ensures |r| == |key|
    ensures forall i :: 0 <= i < |key| ==> r[i] == (if AllowedChar(key[i]) then key[i] else '_')
  {
    seq(|key|, i requires 0 <= i < |key| => if AllowedChar(key[i]) then key[i] else '_')
  }

  /** Repeated ReplaceAll until the pattern no longer occurs: the
      `for strings.Contains(...)` loops of normalizeKey. */
  function Collapse(s: string, pat: string, rep: string): (r: string)
    requires |rep| < |pat|
    ensures !Contains(r, pat)
    decreases |s|
  {
    if Contains(s, pat) then
      ReplaceAllLength(s, pat, rep);
      Collapse(ReplaceAll(s, pat, rep), pat, rep)
    else s
  }

  /** normalizeKey as a function of the key. */
  function NormalizedKey(key: string): string {
    Collapse(Collapse(MapKeyChars(key), "..", "."), "//", "/")
  }

  /** normalizeKey: map the characters, then collapse ".." runs, then "//"
      runs, each by a loop that repeats ReplaceAll while the pair occurs. */
  method NormalizeKey(key: string) returns (normalized: string)
    ensures normalized == NormalizedKey(key)
  {
    normalized := MapKeyChars(key);
    ghost var dots := Collapse(normalized, "..", ".");
    while Contains(normalized, "..")
      invariant Collapse(normalized, "..", ".") == dots
      decreases |normalized|
    {
      ReplaceAllLength(normalized, "..", ".");
      normalized := ReplaceAll(normalized, "..", ".");
    }
    ghost var slashes := Collapse(normalized, "//", "/");
    while Contains(normalized, "//")
      invariant Collapse(normalized, "//", "/") == slashes
      decreases |normalized|
    {
      ReplaceAllLength(normalized, "//", "/");
      normalized := ReplaceAll(normalized, "//", "/");
    }
  }

  /** ReplaceAll with an allowed replacement keeps a string allowed. */
  lemma {:induction false} ReplaceAllAllowed(s: string, pat: string, rep: string)
    requires |pat| > 0 && AllAllowed(s) && AllAllowed(rep)
    ensures AllAllowed(ReplaceAll(s, pat, rep))
  {
    var r := ReplaceAll(s, pat, rep);
    forall c | !AllowedChar(c)
      ensures c !in r
    {
      ReplaceAllKeepsChar(s, pat, rep, c);
    }
    forall i | 0 <= i < |r|
      ensures AllowedChar(r[i])
    {
      assert r[i] in r;
    }
  }

  lemma {:induction false} CollapseAllowed(s: string, pat: string, rep: string)
    requires |rep| < |pat| && AllAllowed(s) && AllAllowed(rep)
    ensures AllAllowed(Collapse(s, pat, rep))
    decreases |s|
  {
    if Contains(s, pat) {
      ReplaceAllLength(s, pat, rep);
      ReplaceAllAllowed(s, pat, rep);
      CollapseAllowed(ReplaceAll(s, pat, rep), pat, rep);
    }
  }

  /** Collapsing "//" cannot bring two dots together. */
  lemma {:induction false} SlashReplaceKeepsNoDots(s: string)
    requires !Contains(s, "..")
    ensures !Contains(ReplaceAll(s, "//", "/"), "..")
    decreases |s|
  {
    var r := ReplaceAll(s, "//", "/");
    if |s| >= 2 {
      if "//" <= s {
        var t := s[2..];
        NoDotsSuffix(s, 2);
        SlashReplaceKeepsNoDots(t);
        NoDotsCons('/', ReplaceAll(t, "//", "/"));
      } else {
        var t := s[1..];
        NoDotsSuffix(s, 1);
        SlashReplaceKeepsNoDots(t);
        var rt := ReplaceAll(t, "//", "/");
        assert r == [s[0]] + rt;
        if s[0] == '.' {
          ReplaceAllHead(t, "//", "/");
          assert !OccursAt(s, "..", 0);
          assert rt[0] == t[0] == s[1] != '.';
        }
        NoDotsCons(s[0], rt);
      }
    }
  }

  /** A suffix of a string without ".." has none either. */
  lemma NoDotsSuffix(s: string, n: nat)
    requires n <= |s| && !Contains(s, "..")
    ensures !Contains(s[n..], "..")
  {
    forall k | 0 <= k <= |s[n..]| - 2
      ensures !OccursAt(s[n..], "..", k)
    {
      assert s[n..][k..k + 2] == s[n + k..n + k + 2];
      if OccursAt(s[n..], "..", k) {
        ContainsAt(s, "..", n + k);
      }
    }
  }

  /** Prefixing a character creates ".." only when both are dots. */
  lemma NoDotsCons(c: char, t: string)
    requires !Contains(t, "..")
    requires c == '.' ==> |t| == 0 || t[0] != '.'
    ensures !Contains([c] + t, "..")
  {
    var s := [c] + t;
    forall k | 0 <= k <= |s| - 2
      ensures !OccursAt(s, "..", k)
    {
      if k > 0 {
        assert s[k..k + 2] == t[k - 1..k + 1];
        if OccursAt(s, "..", k) {
          ContainsAt(t, "..", k - 1);
        }
      } else {
        assert s[0] == c && s[1] == t[0];
      }
    }
  }

  lemma {:induction false} CollapseSlashesKeepsNoDots(s: string)
    requires !Contains(s, "..")
    ensures !Contains(Collapse(s, "//", "/"), "..")
    decreases |s|
  {
    if Contains(s, "//") {
      ReplaceAllLength(s, "//", "/");
      SlashReplaceKeepsNoDots(s);
      CollapseSlashesKeepsNoDots(ReplaceAll(s, "//", "/"));
    }
  }

  /** Every character of a normalised key is allowed, and it holds neither
      ".." nor "//". */
  lemma NormalizedKeyShape(key: string)
    ensures AllAllowed(NormalizedKey(key))
    ensures !Contains(NormalizedKey(key), "..") && !Contains(NormalizedKey(key), "//")
  {
    var m := MapKeyChars(key);
    CollapseAllowed(m, "..", ".");
    var d := Collapse(m, "..", ".");
    CollapseAllowed(d, "//", "/");
    CollapseSlashesKeepsNoDots(d);
  }

  /** Normalising a normalised key changes nothing. */
  lemma NormalizedKeyIdempotent(key: string)
    ensures NormalizedKey(NormalizedKey(key)) == NormalizedKey(key)
  {
    var n := NormalizedKey(key);
    NormalizedKeyShape(key);
    assert MapKeyChars(n) == n;
  }

  /** A key already made of allowed characters, with no ".." and no "//",
      is its own normal form. */
  lemma NormalizedKeyFixed(key: string)
    requires AllAllowed(key) && !Contains(key, "..") && !Contains(key, "//")
    ensures NormalizedKey(key) == key
  {
    assert MapKeyChars(key) == key;
  }

  /** Only the disallowed characters are replaced, each by '_', before the
      collapsing loops run. */
  lemma MapKeyCharsAllowed(key: string)
    ensures AllAllowed(MapKeyChars(key))
    ensures AllAllowed(key) ==> MapKeyChars(key) == key
  {
  }

  // ---------------------------------------------------------------------
  // GetOrSet

  /** The gob file of a key: `dir/normalizeKey(key)_kind.gob`. */
  function EntryPath(dir: string, key: string, kind: string): (p: string)
    ensures HasSuffix(p, "_" + kind + ".gob")
  {
    var p := dir + "/" + NormalizedKey(key) + "_" + kind + ".gob";
    assert p[|p| - |"_" + kind + ".gob"|..] == "_" + kind + ".gob";
    p
  }

  /** The value of a readable entry younger than the TTL, if there is one. */
  function FreshEntry<T>(files: map<string, Option<Entry<T>>>, path: string, ttl: int, now: int): (r: Option<T>)
    ensures r.Some? <==> path in files && files[path].Some? && now - files[path].value.createdAt < ttl
    ensures r.Some? ==> r.value == files[path].value.value
  {
    if path in files && files[path].Some? && now - files[path].value.createdAt < ttl
    then Some(files[path].value.value)
    else None
  }

  /** How far saveEntry gets: all the way, or it stops at MkdirAll or at
      os.Create before the file is touched, or at the gob Encode after
      os.Create has already truncated the file. */
  datatype SaveStep = Saved | MkdirFails | CreateFails | EncodeFails

  /** The files after saveEntry writes `entry` at `path`. A failed Encode
      leaves a file that cannot be decoded. */
  function AfterSave<T>(files: map<string, Option<Entry<T>>>, path: string, entry: Entry<T>,
                        save: SaveStep): (r: map<string, Option<Entry<T>>>)
    ensures save.Saved? ==> path in r && r[path] == Some(entry)
    ensures save.EncodeFails? ==> path in r && r[path] == None
    ensures (save.MkdirFails? || save.CreateFails?) ==> r == files
    ensures forall q :: q != path ==> (q in r <==> q in files) && (q in files ==> r[q] == files[q])
  {
    match save
    case Saved => files[path := Some(entry)]
    case MkdirFails => files
    case CreateFails => files
    case EncodeFails => files[path := None]
  }

  /** What one GetOrSet call returns and leaves on disk. `called` says
      whether the generator ran. */
  datatype Outcome<T> = Outcome(value: T, err: Option<Error>, called: bool, files: map<string, Option<Entry<T>>>)

  /** GetOrSet as a function of the disk contents, the generator's result
      `gen` and the environment. */
  function GetOrSetSpec<T>(files: map<string, Option<Entry<T>>>, path: string, ttl: int,
                           gen: Result<T, Error>, forceUpdate: bool, now: int, zero: T,
                           save: SaveStep): Outcome<T>
  {
    var hit := if forceUpdate then None else FreshEntry(files, path, ttl, now);
    if hit.Some? then Outcome(hit.value, None, false, files)
    else if gen.Failure? then Outcome(zero, Some(gen.error), true, files)
    else Outcome(gen.value, if save.Saved? then None else Some(CacheSaveFailed), true,
                 AfterSave(files, path, Entry(gen.value, now), save))
  }

  /** A cache of one kind of value, stored under `dir` with time-to-live
      `ttl`. */
  class Cache<T> {
    const kind: string
    var dir: string
    var ttl: int
    const disk: Disk<T>

    /** cache.New, with Go's package-level DefaultDir passed in. */
    constructor(kind: string, defaultDir: string, disk: Disk<T>)
      ensures this.kind == kind && dir == defaultDir && ttl == DefaultTTL && this.disk == disk
    {
      this.kind := kind;
      dir := defaultDir;
      ttl := DefaultTTL;
      this.disk := disk;
    }

    method SetTTL(d: int)
      modifies this
      ensures ttl == d && dir == old(dir)
    {
      ttl := d;
    }

    /** SetDir: the directory changes only if it could be created. */
    method SetDir(newDir: string, mkdirFails: bool) returns (err: Option<Error>)
      modifies this
      ensures ttl == old(ttl)
      ensures mkdirFails ==> err.Some? && dir == old(dir)
      ensures !mkdirFails ==> err == None && dir == newDir
    {
      if mkdirFails {
        return Some(Wrapped("mkdir"));
      }
      dir := newDir;
      return None;
    }

    /** GetOrSet: serve a fresh entry unless forced, otherwise run the
        generator and store what it produced. */
    method GetOrSet(key: string, gen: Result<T, Error>, forceUpdate: bool, now: int, zero: T,
                    save: SaveStep) returns (value: T, err: Option<Error>, called: bool)
      modifies disk
      ensures Outcome(value, err, called, disk.files)
           == GetOrSetSpec(old(disk.files), EntryPath(dir, key, kind), ttl, gen, forceUpdate, now, zero, save)
    {
      var normalizedKey := NormalizeKey(key);
      var path := dir + "/" + normalizedKey + "_" + kind + ".gob";
      if !forceUpdate {
        if path in disk.files && disk.files[path].Some? {
          var entry := disk.files[path].value;
          if now - entry.createdAt < ttl {
            return entry.value, None, false;
          }
        }
      }
      called := true;
      if gen.Failure? {
        return zero, Some(gen.error), called;
      }
      value := gen.value;
      err := SaveEntry(path, Entry(value, now), save);
    }

    /** saveEntry: MkdirAll, then os.Create (which truncates an existing
        file), then the gob Encode. */
    method SaveEntry(path: string, entry: Entry<T>, save: SaveStep) returns (err: Option<Error>)
      modifies disk
      ensures err.None? <==> save.Saved?
      ensures err.Some? ==> err == Some(CacheSaveFailed)
      ensures disk.files == AfterSave(old(disk.files), path, entry, save)
    {
      if save.MkdirFails? {
        return Some(CacheSaveFailed);
      }
      if save.CreateFails? {
        return Some(CacheSaveFailed);
      }
      disk.files := disk.files[path := None];
      if save.EncodeFails? {
        return Some(CacheSaveFailed);
      }
      disk.files := disk.files[path := Some(entry)];
      err := None;
    }
  }

  /** A fresh entry is served without running the generator, and the disk is
      left as it was. */
  lemma GetOrSetHit<T>(files: map<string, Option<Entry<T>>>, path: string, ttl: int,
                       gen: Result<T, Error>, now: int, zero: T, save: SaveStep)
    requires path in files && files[path].Some? && now - files[path].value.createdAt < ttl
    ensures GetOrSetSpec(files, path, ttl, gen, false, now, zero, save)
         == Outcome(files[path].value.value, None, false, files)
  {
  }

  /** When forced, or with no readable fresh entry, the generator runs. */
  lemma GetOrSetCallsGenerator<T>(files: map<string, Option<Entry<T>>>, path: string, ttl: int,
                                  gen: Result<T, Error>, forceUpdate: bool, now: int, zero: T, save: SaveStep)
    ensures GetOrSetSpec(files, path, ttl, gen, forceUpdate, now, zero, save).called
        <==> forceUpdate || FreshEntry(files, path, ttl, now).None?
  {
  }

  /** A failing generator gives the zero value and its error, and nothing is
      written. */
  lemma GetOrSetGeneratorFails<T>(files: map<string, Option<Entry<T>>>, path: string, ttl: int,
                                  e: Error, forceUpdate: bool, now: int, zero: T, save: SaveStep)
    requires forceUpdate || FreshEntry(files, path, ttl, now).None?
    ensures GetOrSetSpec(files, path, ttl, Failure(e), forceUpdate, now, zero, save)
         == Outcome(zero, Some(e), true, files)
  {
  }

  /** A value stored by one call is served by the next unforced call within
      the TTL, without running that call's generator. */
  lemma GetOrSetMemoises<T>(files: map<string, Option<Entry<T>>>, path: string, ttl: int,
                            v: T, forceUpdate: bool, now: int, zero: T,
                            gen2: Result<T, Error>, later: int, save2: SaveStep)
    requires now <= later < now + ttl
    requires forceUpdate || FreshEntry(files, path, ttl, now).None?
    ensures var o1 := GetOrSetSpec(files, path, ttl, Success(v), forceUpdate, now, zero, Saved);
            o1.value == v && o1.err == None &&
            GetOrSetSpec(o1.files, path, ttl, gen2, false, later, zero, save2) == Outcome(v, None, false, o1.files)
  {
  }

  /** A failed save still returns the generated value, with the save
      error. A failure at MkdirAll or os.Create leaves the disk as it was; a
      failure at Encode leaves the truncated file, which cannot be read. */
  lemma GetOrSetSaveFails<T>(files: map<string, Option<Entry<T>>>, path: string, ttl: int,
                             v: T, forceUpdate: bool, now: int, zero: T, save: SaveStep)
    requires forceUpdate || FreshEntry(files, path, ttl, now).None?
    requires !save.Saved?
    ensures var o := GetOrSetSpec(files, path, ttl, Success(v), forceUpdate, now, zero, save);
            o.value == v && o.err == Some(CacheSaveFailed) && o.called &&
            (save.EncodeFails? ==> o.files == files[path := None]) &&
            (!save.EncodeFails? ==> o.files == files)
  {
  }

  /** After a save that failed at Encode, the next unforced call finds no
      readable entry and runs its generator again, even if a fresh entry
      was there before. */
  lemma EncodeFailureLosesEntry<T>(files: map<string, Option<Entry<T>>>, path: string, ttl: int,
                                   v: T, now: int, zero: T, gen2: Result<T, Error>, later: int,
                                   save2: SaveStep)
    ensures var o1 := GetOrSetSpec(files, path, ttl, Success(v), true, now, zero, EncodeFails);
            GetOrSetSpec(o1.files, path, ttl, gen2, false, later, zero, save2).called
  {
  }

  /** A save that failed before os.Create keeps a fresh old entry: the next
      unforced call serves it. */
  lemma EarlySaveFailureKeepsEntry<T>(files: map<string, Option<Entry<T>>>, path: string, ttl: int,
                                      v: T, now: int, zero: T, gen2: Result<T, Error>, later: int,
                                      save: SaveStep, save2: SaveStep)
    requires save.MkdirFails? || save.CreateFails?
    requires path in files && files[path].Some? && later - files[path].value.createdAt < ttl
    ensures var o1 := GetOrSetSpec(files, path, ttl, Success(v), true, now, zero, save);
            GetOrSetSpec(o1.files, path, ttl, gen2, false, later, zero, save2)
              == Outcome(files[path].value.value, None, false, files)
  {
  }

  // ---------------------------------------------------------------------
  // cleanupOldCache

  /** A directory listing entry. */
  datatype DirEntry = DirEntry(name: string, isDir: bool)

  /** The directories cleanupOldCache removes: version directories other
      than the current one. */
  predicate IsStaleVersionDir(e: DirEntry) {
    e.isDir && HasPrefix(e.name, "v") && e.name != CacheVersion
  }

  function StaleDirs(entries: seq<DirEntry>): (r: seq<string>)
    ensures |r| <= |entries|
    ensures forall i :: 0 <= i < |r| ==> HasPrefix(r[i], "v") && r[i] != CacheVersion
  {
    if |entries| == 0 then []
    else (if IsStaleVersionDir(entries[0]) then [entries[0].name] else []) + StaleDirs(entries[1..])
  }

  /** The name filter of cleanupOldCache's loop; `removed` lists the
      directories handed to os.RemoveAll, in listing order. */
  method CleanupOldCache(entries: seq<DirEntry>) returns (removed: seq<string>)
    ensures removed == StaleDirs(entries)
  {
    removed := [];
    for i := 0 to |entries|
      invariant removed + StaleDirs(entries[i..]) == StaleDirs(entries)
    {
      assert entries[i..] == [entries[i]] + entries[i + 1..];
      if entries[i].isDir {
        var dirName := entries[i].name;
        if HasPrefix(dirName, "v") && dirName != CacheVersion {
          removed := removed + [dirName];
        }
      }
    }
    assert entries[|entries|..] == [];
  }

  /** A directory is removed exactly when it is a stale version directory;
      the current version's directory and plain files are kept. */
  lemma {:induction false} StaleDirsExactly(entries: seq<DirEntry>, name: string)
    ensures name in StaleDirs(entries) <==>
      exists i :: 0 <= i < |entries| && entries[i].name == name && IsStaleVersionDir(entries[i])
  {
    if |entries| > 0 {
      StaleDirsExactly(entries[1..], name);
      if name in StaleDirs(entries[1..]) {
        var i :| 0 <= i < |entries[1..]| && entries[1..][i].name == name && IsStaleVersionDir(entries[1..][i]);
        assert entries[i + 1] == entries[1..][i];
      }
      if exists i :: 0 <= i < |entries| && entries[i].name == name && IsStaleVersionDir(entries[i]) {
        var i :| 0 <= i < |entries| && entries[i].name == name && IsStaleVersionDir(entries[i]);
        if i > 0 {
          assert entries[1..][i - 1] == entries[i];
        }
      }
    }
  }
}
