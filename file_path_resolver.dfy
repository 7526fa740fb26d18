/**
 * Hyperlink file paths: recognising the path forms a terminal line may hold,
 * resolving them to a canonical absolute path, and a time-limited cache of
 * existence answers. Canonicalisation is the parameter `canon`, the clock is `now`
 * (milliseconds) and the filesystem's answer is passed in.
 */
module FilePathResolver {
  import opened Nullables
  import opened Text

  const CACHE_TTL_MS: int := 5000
  const MAX_CACHE_SIZE: int := 1000

  /** The line terminators, which `.` in a Java regular expression does not match. */
  predicate IsLineTerminator(c: char) {
    c == '\n' || c == '\r' || c == '\U{0085}' || c == '\U{2028}' || c == '\U{2029}'
  }

  predicate IsAsciiLetter(c: char) {
    ('A' <= c <= 'Z') || ('a' <= c <= 'z')
  }

  /** The whole-string match of `^[A-Za-z]:\\.*`: a drive letter, `:\`, then one line. */
  predicate IsWindowsDrivePath(path: string) {
    |path| >= 3 && IsAsciiLetter(path[0]) && path[1] == ':' && path[2] == '\\'
    && forall i :: 3 <= i < |path| ==> !IsLineTerminator(path[i])
  }

  datatype PathForm = UnixAbsolute | WindowsAbsolute | HomeRelative | WorkingDirRelative | Unrecognised

  /** The form of a non-blank path, tested in the order the resolver tests them. */
  function Classify(path: string): PathForm {
    if StartsWith(path, "/") then UnixAbsolute
    else if IsWindowsDrivePath(path) then WindowsAbsolute
    else if StartsWith(path, "~/") then HomeRelative
    else if StartsWith(path, "./") || StartsWith(path, "../") then WorkingDirRelative
    else Unrecognised
  }

  /** `File(parent, child)`; separator normalisation is left to `canon`. */
  function Join(parent: string, child: string): string {
    parent + "/" + child
  }

  /**
   * `resolvePath`: the canonical path a hyperlink names, or None when the text is
   * blank, of no recognised form, or relative to a home or working directory that
   * is unknown.
   */
  function ResolvePath(path: string, workingDirectory: Option<string>, home: Option<string>,
                       canon: string -> string): (r: Option<string>)
    ensures IsBlank(path) ==> r == None
    ensures !IsBlank(path) && Classify(path) == Unrecognised ==> r == None
    ensures r.Some? ==> exists p :: r.value == canon(p)
  {
    if IsBlank(path) then None
    else
      match Classify(path)
      case UnixAbsolute => Some(canon(path))
      case WindowsAbsolute => Some(canon(path))
      case HomeRelative =>
        if home.None? then None else Some(canon(Join(home.value, path[2..])))
      case WorkingDirRelative =>
        if workingDirectory.None? then None
        else Some(canon(canon(Join(workingDirectory.value, path))))
      case Unrecognised => None
  }

  lemma SlashIsNotBlank(path: string)
    requires |path| > 0 && (path[0] == '/' || path[0] == '~' || path[0] == '.')
    ensures !IsBlank(path)
  {
    assert !IsWhitespace(path[0]);
  }

  /** A path starting with `/` is canonicalised as it stands. */
  lemma UnixAbsoluteResolution(rest: string, cwd: Option<string>, home: Option<string>,
                               canon: string -> string)
    ensures ResolvePath("/" + rest, cwd, home, canon) == Some(canon("/" + rest))
  {
    SlashIsNotBlank("/" + rest);
  }

  /** A drive letter, `:\` and a single line is a Windows absolute path. */
  lemma WindowsResolution(drive: char, rest: string, cwd: Option<string>, home: Option<string>,
                          canon: string -> string)
    requires IsAsciiLetter(drive)
    requires forall i :: 0 <= i < |rest| ==> !IsLineTerminator(rest[i])
    ensures var path := [drive, ':', '\\'] + rest;
      ResolvePath(path, cwd, home, canon) == Some(canon(path))
  {
    var path := [drive, ':', '\\'] + rest;
    assert !IsWhitespace(path[0]);
    assert forall i :: 3 <= i < |path| ==> path[i] == rest[i - 3];
    assert IsWindowsDrivePath(path);
  }

  /** A line break after the drive prefix defeats the Windows pattern. */
  lemma WindowsPatternIsOneLine(drive: char, before: string, after: string)
    ensures !IsWindowsDrivePath([drive, ':', '\\'] + before + "\n" + after)
  {
    var path := [drive, ':', '\\'] + before + "\n" + after;
    assert path[3 + |before|] == '\n';
  }

  /** `~/rest` is `rest` under the home directory; without a home it is unresolved. */
  lemma HomeResolution(rest: string, cwd: Option<string>, home: Option<string>,
                       canon: string -> string)
    ensures home.None? ==> ResolvePath("~/" + rest, cwd, home, canon) == None
    ensures home.Some? ==>
      ResolvePath("~/" + rest, cwd, home, canon) == Some(canon(home.value + "/" + rest))
  {
    var path := "~/" + rest;
    SlashIsNotBlank(path);
    assert !IsWindowsDrivePath(path);
    assert path[2..] == rest;
  }

  /** `./rest` and `../rest` are joined to the working directory; without one they are unresolved. */
  lemma WorkingDirResolution(prefix: string, rest: string, cwd: Option<string>, home: Option<string>,
                             canon: string -> string)
    requires prefix == "./" || prefix == "../"
    ensures cwd.None? ==> ResolvePath(prefix + rest, cwd, home, canon) == None
    ensures cwd.Some? ==>
      ResolvePath(prefix + rest, cwd, home, canon) == Some(canon(canon(cwd.value + "/" + prefix + rest)))
  {
    var path := prefix + rest;
    SlashIsNotBlank(path);
    assert path[0] == '.';
    assert !StartsWith(path, "/") && !StartsWith(path, "~/") && !IsWindowsDrivePath(path);
    assert StartsWith(path, prefix);
    if cwd.Some? {
      assert cwd.value + "/" + path == cwd.value + "/" + prefix + rest;
    }
  }

  /** A bare relative name such as `foo/bar` is not a path form. */
  lemma BareRelativeRejected(cwd: Option<string>, home: Option<string>, canon: string -> string)
    ensures ResolvePath("foo/bar", cwd, home, canon) == None
  {
    assert !IsWindowsDrivePath("foo/bar");
  }

  /** `contains` for a single character is membership. */
  lemma ContainsChar(s: string, c: char)
    ensures Contains(s, [c]) <==> c in s
  {
    if c in s {
      var i :| 0 <= i < |s| && s[i] == c;
      assert OccursAt(s, [c], i);
    }
    if Contains(s, [c]) {
      var i :| OccursAt(s, [c], i);
      assert s[i] == s[i..i + 1][0];
    }
  }

  /** `looksLikeUnixPath`: a `/` somewhere, and no URL scheme separator. */
  function LooksLikeUnixPath(text: string): (r: bool)
    ensures r <==> '/' in text && !Contains(text, "://")
  {
    ContainsChar(text, '/');
    Contains(text, "/") && !Contains(text, "://")
  }

  function LooksLikeHomePath(text: string): bool {
    Contains(text, "~/")
  }

  function LooksLikeRelativePath(text: string): bool {
    Contains(text, "./")
  }

  function LooksLikeWindowsPath(text: string): bool {
    Contains(text, ":\\")
  }

  /**
   * Each resolvable form passes its quick test: home paths `looksLikeHomePath`,
   * relative paths `looksLikeRelativePath`, Windows paths `looksLikeWindowsPath`,
   * and Unix paths `looksLikeUnixPath` unless they hold `://`.
   */
  lemma QuickTestsAdmitForms(path: string)
    ensures Classify(path) == HomeRelative ==> LooksLikeHomePath(path)
    ensures Classify(path) == WorkingDirRelative ==> LooksLikeRelativePath(path)
    ensures Classify(path) == WindowsAbsolute ==> LooksLikeWindowsPath(path)
    ensures Classify(path) == UnixAbsolute ==> (LooksLikeUnixPath(path) <==> !Contains(path, "://"))
  {
    match Classify(path)
    case HomeRelative =>
      assert OccursAt(path, "~/", 0);
    case WorkingDirRelative =>
      if StartsWith(path, "./") {
        assert OccursAt(path, "./", 0);
      } else {
        assert OccursAt(path, "./", 1);
      }
    case WindowsAbsolute =>
      assert OccursAt(path, ":\\", 1);
    case UnixAbsolute =>
      assert path[0] == '/';
    case Unrecognised =>
  }

  /** A cached existence answer and the time it was obtained. */
  datatype CacheEntry = CacheEntry(present: bool, timestamp: int)

  /** An entry obtained less than the time-to-live ago. */
  predicate IsFresh(entry: CacheEntry, now: int) {
    now - entry.timestamp < CACHE_TTL_MS
  }

  /** The entries that survive eviction at `now`: those not older than the time-to-live. */
  function Evict(entries: map<string, CacheEntry>, now: int): map<string, CacheEntry> {
    map k | k in entries && entries[k].timestamp >= now - CACHE_TTL_MS :: entries[k]
  }

  datatype ExistsOutcome = ExistsOutcome(result: bool, entries: map<string, CacheEntry>)

  /**
   * `exists`: a fresh cached answer is returned as is; otherwise the cache is first
   * pruned when it holds more than MAX_CACHE_SIZE entries, and the filesystem's
   * answer `onDisk` is returned and recorded with the current time.
   */
  function ExistsSpec(entries: map<string, CacheEntry>, path: string, now: int, onDisk: bool)
    : ExistsOutcome
  {
    if path in entries && IsFresh(entries[path], now) then ExistsOutcome(entries[path].present, entries)
    else
      var pruned := if |entries| > MAX_CACHE_SIZE then Evict(entries, now) else entries;
      ExistsOutcome(onDisk, pruned[path := CacheEntry(onDisk, now)])
  }

  /** A fresh entry answers without the filesystem and leaves the cache alone. */
  lemma FreshHitIgnoresFilesystem(entries: map<string, CacheEntry>, path: string, now: int, onDisk: bool)
    requires path in entries && now - entries[path].timestamp < CACHE_TTL_MS
    ensures ExistsSpec(entries, path, now, onDisk) == ExistsOutcome(entries[path].present, entries)
  {
  }

  /** On a miss the filesystem's answer is returned and recorded with the current time. */
  lemma MissRecordsFilesystemAnswer(entries: map<string, CacheEntry>, path: string, now: int, onDisk: bool)
    requires !(path in entries && now - entries[path].timestamp < CACHE_TTL_MS)
    ensures var out := ExistsSpec(entries, path, now, onDisk);
      out.result == onDisk && path in out.entries && out.entries[path] == CacheEntry(onDisk, now)
  {
  }

  /**
   * Eviction: with at most MAX_CACHE_SIZE entries a miss only adds its own entry;
   * above that, every other entry survives exactly when its timestamp is at least
   * `now - CACHE_TTL_MS`.
   */
  lemma EvictionOnlyWhenOverfull(entries: map<string, CacheEntry>, path: string, now: int, onDisk: bool)
    requires !(path in entries && now - entries[path].timestamp < CACHE_TTL_MS)
    ensures |entries| <= MAX_CACHE_SIZE ==>
      ExistsSpec(entries, path, now, onDisk).entries == entries[path := CacheEntry(onDisk, now)]
    ensures |entries| > MAX_CACHE_SIZE ==>
      forall k :: k != path ==>
        (k in ExistsSpec(entries, path, now, onDisk).entries <==>
          k in entries && entries[k].timestamp >= now - CACHE_TTL_MS)
  {
  }

  /** Two lookups of a path at the same instant agree: the second is always a hit. */
  lemma RepeatedLookupAgrees(entries: map<string, CacheEntry>, path: string, now: int,
                             onDisk: bool, onDiskLater: bool)
    ensures var first := ExistsSpec(entries, path, now, onDisk);
      ExistsSpec(first.entries, path, now, onDiskLater) == ExistsOutcome(first.result, first.entries)
  {
  }

  lemma {:induction false} SubsetCardinality<T>(a: set<T>, b: set<T>)
    requires a <= b
    ensures |a| <= |b|
    decreases |b|
  {
    if a != {} {
      var x :| x in a;
      SubsetCardinality(a - {x}, b - {x});
    }
  }

  /** A lookup grows the cache by at most the one entry it records. */
  lemma CacheGrowsByAtMostOne(entries: map<string, CacheEntry>, path: string, now: int, onDisk: bool)
    ensures |ExistsSpec(entries, path, now, onDisk).entries| <= |entries| + 1
  {
    if !(path in entries && IsFresh(entries[path], now)) && |entries| > MAX_CACHE_SIZE {
      var pruned := Evict(entries, now);
      assert pruned.Keys <= entries.Keys;
      SubsetCardinality(pruned.Keys, entries.Keys);
      assert pruned[path := CacheEntry(onDisk, now)].Keys == pruned.Keys + {path};
    } else if !(path in entries && IsFresh(entries[path], now)) {
      assert entries[path := CacheEntry(onDisk, now)].Keys == entries.Keys + {path};
    }
  }

  /** The shared existence cache, keyed by absolute path. */
  class PathCache {
    var entries: map<string, CacheEntry>

    constructor ()
      ensures entries == map[]
    {
      entries := map[];
    }

    /** `exists(file)` for the absolute path `path`; `onDisk` is what `File.exists` reports now. */
    method Exists(path: string, now: int, onDisk: bool) returns (present: bool)
      modifies this
      ensures ExistsOutcome(present, entries) == ExistsSpec(old(entries), path, now, onDisk)
    {
      if path in entries {
        var cached := entries[path];
        if now - cached.timestamp < CACHE_TTL_MS {
          return cached.present;
        }
      }
      if |entries| > MAX_CACHE_SIZE {
        var expiredThreshold := now - CACHE_TTL_MS;
        entries := map k | k in entries && !(entries[k].timestamp < expiredThreshold) :: entries[k];
      }
      present := onDisk;
      entries := entries[path := CacheEntry(present, now)];
    }

    /** `resolveAndValidate`: the resolved path when it exists, consulting the cache. */
    method ResolveAndValidate(path: string, workingDirectory: Option<string>, home: Option<string>,
                              canon: string -> string, now: int, onDisk: string -> bool)
      returns (r: Option<string>)
      modifies this
      ensures var resolved := ResolvePath(path, workingDirectory, home, canon);
        && (resolved.None? ==> r == None && entries == old(entries))
        && (resolved.Some? ==>
              var out := ExistsSpec(old(entries), resolved.value, now, onDisk(resolved.value));
              entries == out.entries && r == (if out.result then resolved else None))
    {
      var resolved := ResolvePath(path, workingDirectory, home, canon);
      if resolved.None? {
        return None;
      }
      var present := Exists(resolved.value, now, onDisk(resolved.value));
      r := if present then resolved else None;
    }

    method ClearCache()
      modifies this
      ensures entries == map[]
    {
      entries := map[];
    }
  }
}
