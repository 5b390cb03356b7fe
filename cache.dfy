/**
 * The secret cache on disk: cache keys derived from `op://` paths, one JSON file
 * per key inside the cache directory, expiry, and the read, write, list, clear
 * and info operations over a modelled directory.
 */
module Cache {
  import opened Wrappers
  import opened Strings

  // ---------------------------------------------------------------------------
  // Cache keys

  const OP_SCHEME: string := "op://"

  /** `.replace(/^op:\/\//, '')`: one leading scheme, and only a leading one. */
  function StripScheme(s: string): (r: string)
    ensures StartsWith(s, OP_SCHEME) ==> s == OP_SCHEME + r
    ensures !StartsWith(s, OP_SCHEME) ==> r == s
  {
    if StartsWith(s, OP_SCHEME) then s[|OP_SCHEME|..] else s
  }

  /** The characters `[a-z0-9]` that survive slugification. */
  predicate IsSlugChar(c: char) {
    'a' <= c <= 'z' || '0' <= c <= '9'
  }

  /** Every character is a slug character or a dash. */
  predicate SlugAlphabet(s: string) {
    forall i | 0 <= i < |s| :: IsSlugChar(s[i]) || s[i] == '-'
  }

  /** No two dashes stand next to each other. */
  predicate NoDoubleDash(s: string) {
    forall i | 0 <= i < |s| - 1 :: !(s[i] == '-' && s[i + 1] == '-')
  }

  /** Neither the first nor the last character is a dash. */
  predicate DashFreeEnds(s: string) {
    s == [] || (s[0] != '-' && s[|s| - 1] != '-')
  }

  /** What `slugifyPath` promises of its result. */
  predicate IsSlug(s: string) {
    SlugAlphabet(s) && NoDoubleDash(s) && DashFreeEnds(s)
  }

  /** The rest of `s` after the run of non-slug characters it starts with. */
  function DropRun(s: string): (r: string)
    ensures |r| <= |s| && r == s[|s| - |r|..]
    ensures r == [] || IsSlugChar(r[0])
  {
    if s != [] && !IsSlugChar(s[0]) then
      var r := DropRun(s[1..]);
      assert s[1..][|s| - 1 - |r|..] == s[|s| - |r|..];
      r
    else s
  }

  /** `.replace(/[^a-z0-9]+/g, '-')`: every maximal run of other characters becomes one dash. */
  function Collapse(s: string): string
    decreases |s|
  {
    if s == [] then []
    else if IsSlugChar(s[0]) then [s[0]] + Collapse(s[1..])
    else "-" + Collapse(DropRun(s[1..]))
  }

  /** Collapsing leaves only slug characters and single dashes, and starts with a dash
      exactly when the input starts with a character it replaces. */
  lemma {:induction false} CollapseShape(s: string)
    ensures var r := Collapse(s);
      && SlugAlphabet(r) && NoDoubleDash(r)
      && (r != [] <==> s != [])
      && (s != [] ==> (r[0] == '-' <==> !IsSlugChar(s[0])))
    decreases |s|
  {
    if s != [] {
      var t := if IsSlugChar(s[0]) then s[1..] else DropRun(s[1..]);
      CollapseShape(t);
      var c := if IsSlugChar(s[0]) then s[0] else '-';
      assert Collapse(s) == [c] + Collapse(t);
      ConsKeepsShape(c, Collapse(t));
    }
  }

  /** A slug character, or a dash before something that does not start with one, keeps
      the alphabet and the lack of double dashes. */
  lemma ConsKeepsShape(c: char, u: string)
    requires IsSlugChar(c) || c == '-'
    requires SlugAlphabet(u) && NoDoubleDash(u)
    requires c == '-' && u != [] ==> u[0] != '-'
    ensures SlugAlphabet([c] + u) && NoDoubleDash([c] + u)
  {
    var r := [c] + u;
    assert forall i | 1 <= i < |r| :: r[i] == u[i - 1];
  }

  /** The `^-+` half of `.replace(/^-+|-+$/g, '')`. */
  function DropLeadingDashes(s: string): (r: string)
    ensures |r| <= |s| && r == s[|s| - |r|..]
    ensures r == [] || r[0] != '-'
  {
    if s != [] && s[0] == '-' then DropLeadingDashes(s[1..]) else s
  }

  /** The `-+$` half of `.replace(/^-+|-+$/g, '')`. */
  function DropTrailingDashes(s: string): (r: string)
    ensures |r| <= |s| && r == s[..|r|]
    ensures r == [] || r[|r| - 1] != '-'
  {
    if s != [] && s[|s| - 1] == '-' then DropTrailingDashes(s[..|s| - 1]) else s
  }

  /** A piece of a string keeps its alphabet and its lack of double dashes. */
  lemma SlicePreserves(s: string, i: nat, j: nat)
    requires i <= j <= |s| && SlugAlphabet(s) && NoDoubleDash(s)
    ensures SlugAlphabet(s[i..j]) && NoDoubleDash(s[i..j])
  {
    var t := s[i..j];
    assert forall k | 0 <= k < |t| :: t[k] == s[i + k];
  }

  /** A leading dash does not come back when trailing dashes are dropped. */
  lemma TrailingKeepsHead(s: string)
    requires s == [] || s[0] != '-'
    ensures var r := DropTrailingDashes(s); r == [] || r[0] != '-'
  {
    var r := DropTrailingDashes(s);
    if r != [] {
      assert r[0] == s[0];
    }
  }

  /** `.replace(/^-+|-+$/g, '')`: the leading and the trailing run of dashes go. */
  function TrimDashes(s: string): (r: string)
    ensures SlugAlphabet(s) && NoDoubleDash(s) ==> IsSlug(r)
    ensures DashFreeEnds(s) ==> r == s
  {
    TrimDashesKeeps(s);
    DropTrailingDashes(DropLeadingDashes(s))
  }

  lemma TrimDashesKeeps(s: string)
    ensures SlugAlphabet(s) && NoDoubleDash(s) ==> IsSlug(DropTrailingDashes(DropLeadingDashes(s)))
  {
    var t := DropLeadingDashes(s);
    var r := DropTrailingDashes(t);
    TrailingKeepsHead(t);
    if SlugAlphabet(s) && NoDoubleDash(s) {
      SlicePreserves(s, |s| - |t|, |s|);
      SlicePreserves(t, 0, |r|);
    }
  }

  /** `slugifyPath`, on ASCII input: drop the scheme, lower-case, collapse runs of
      other characters into single dashes, trim dashes at both ends. */
  function SlugifyPath(opPath: string): (r: string)
    ensures IsSlug(r)
  {
    CollapseShape(ToLower(StripScheme(opPath)));
    TrimDashes(Collapse(ToLower(StripScheme(opPath))))
  }

  /** The slug characters of a string, in order: what slugification keeps. */
  function SlugChars(s: string): string
    decreases |s|
  {
    if s == [] then [] else (if IsSlugChar(s[0]) then [s[0]] else []) + SlugChars(s[1..])
  }

  lemma {:induction false} SlugCharsAppend(a: string, b: string)
    ensures SlugChars(a + b) == SlugChars(a) + SlugChars(b)
    decreases |a|
  {
    if a != [] {
      assert (a + b)[0] == a[0] && (a + b)[1..] == a[1..] + b;
      SlugCharsAppend(a[1..], b);
      var h: string := if IsSlugChar(a[0]) then [a[0]] else [];
      assert SlugChars(a + b) == h + (SlugChars(a[1..]) + SlugChars(b));
      assert h + (SlugChars(a[1..]) + SlugChars(b)) == (h + SlugChars(a[1..])) + SlugChars(b);
    } else {
      assert a + b == b;
    }
  }

  lemma {:induction false} DropRunKeeps(s: string)
    ensures SlugChars(DropRun(s)) == SlugChars(s)
    decreases |s|
  {
    if s != [] && !IsSlugChar(s[0]) {
      DropRunKeeps(s[1..]);
    }
  }

  /** Collapsing replaces only characters that are not slug characters. */
  lemma {:induction false} CollapseKeeps(s: string)
    ensures SlugChars(Collapse(s)) == SlugChars(s)
    decreases |s|
  {
    if s != [] {
      if IsSlugChar(s[0]) {
        CollapseKeeps(s[1..]);
        assert ([s[0]] + Collapse(s[1..]))[1..] == Collapse(s[1..]);
      } else {
        var t := DropRun(s[1..]);
        CollapseKeeps(t);
        DropRunKeeps(s[1..]);
        assert ("-" + Collapse(t))[1..] == Collapse(t);
      }
    }
  }

  lemma {:induction false} LeadingDashesKeep(s: string)
    ensures SlugChars(DropLeadingDashes(s)) == SlugChars(s)
    decreases |s|
  {
    if s != [] && s[0] == '-' {
      LeadingDashesKeep(s[1..]);
    }
  }

  lemma {:induction false} TrailingDashesKeep(s: string)
    ensures SlugChars(DropTrailingDashes(s)) == SlugChars(s)
    decreases |s|
  {
    if s != [] && s[|s| - 1] == '-' {
      var front := s[..|s| - 1];
      TrailingDashesKeep(front);
      assert s == front + [s[|s| - 1]];
      SlugCharsAppend(front, [s[|s| - 1]]);
      assert SlugChars([s[|s| - 1]]) == [];
    }
  }

  /** What the slug holds: exactly the letters and digits of the lower-cased path without
      its scheme, in order, with single dashes between some of them; it is empty exactly
      when the path has none. */
  lemma SlugifyKeepsSlugChars(opPath: string)
    ensures SlugChars(SlugifyPath(opPath)) == SlugChars(ToLower(StripScheme(opPath)))
    ensures SlugifyPath(opPath) == [] <==> SlugChars(ToLower(StripScheme(opPath))) == []
  {
    var lowered := ToLower(StripScheme(opPath));
    var collapsed := Collapse(lowered);
    CollapseKeeps(lowered);
    LeadingDashesKeep(collapsed);
    TrailingDashesKeep(DropLeadingDashes(collapsed));
    var r := SlugifyPath(opPath);
    if r != [] {
      assert IsSlugChar(r[0]);
      assert SlugChars(r)[0] == r[0];
    }
  }

  /** A slug is left alone by collapsing: it has no run longer than one dash. */
  lemma {:induction false} CollapseSlug(s: string)
    requires SlugAlphabet(s) && NoDoubleDash(s)
    ensures Collapse(s) == s
    decreases |s|
  {
    if s != [] {
      SlicePreserves(s, 1, |s|);
      CollapseSlug(s[1..]);
      if IsSlugChar(s[0]) {
        CollapseSlugHead(s);
      } else {
        assert s[1..] == [] || IsSlugChar(s[1]);
        assert DropRun(s[1..]) == s[1..];
        CollapseDashHead(s);
        assert s == [s[0]] + s[1..];
      }
    }
  }

  /** A slug has no scheme and no upper case, so the first two steps leave it as it is. */
  lemma SlugUnchangedByLowering(s: string)
    requires IsSlug(s)
    ensures StripScheme(s) == s && ToLower(s) == s
  {
    if |s| >= |OP_SCHEME| {
      assert s[..|OP_SCHEME|][2] == s[2] != ':';
    }
    forall i | 0 <= i < |s|
      ensures ToLower(s)[i] == s[i]
    {
      assert IsSlugChar(s[i]) || s[i] == '-';
    }
  }

  /** Slugifying is idempotent: a slug has no scheme, no upper case, no runs to collapse
      and no dashes to trim. */
  lemma SlugifyIdempotent(opPath: string)
    ensures SlugifyPath(SlugifyPath(opPath)) == SlugifyPath(opPath)
  {
    var s := SlugifyPath(opPath);
    SlugUnchangedByLowering(s);
    CollapseSlug(s);
    assert TrimDashes(s) == s;
  }

  /** A word of slug characters passes through collapsing unchanged. */
  lemma {:induction false} CollapseWord(w: string, rest: string)
    requires forall i | 0 <= i < |w| :: IsSlugChar(w[i])
    ensures Collapse(w + rest) == w + Collapse(rest)
    decreases |w|
  {
    if w == [] {
      assert w + rest == rest;
    } else {
      var s := w + rest;
      assert s[1..] == w[1..] + rest;
      CollapseSlugHead(s);
      CollapseWord(w[1..], rest);
      assert [w[0]] + (w[1..] + Collapse(rest)) == w + Collapse(rest);
    }
  }

  /** A leading slug character is kept as it is. */
  lemma CollapseSlugHead(s: string)
    requires s != [] && IsSlugChar(s[0])
    ensures Collapse(s) == [s[0]] + Collapse(s[1..])
  {
  }

  /** A leading separator and the run after it become one dash. */
  lemma CollapseDashHead(s: string)
    requires s != [] && !IsSlugChar(s[0])
    ensures Collapse(s) == "-" + Collapse(DropRun(s[1..]))
  {
  }

  /** A single separator before a word becomes a single dash. */
  lemma CollapseSeparator(c: char, t: string)
    requires !IsSlugChar(c) && (t == [] || IsSlugChar(t[0]))
    ensures Collapse([c] + t) == "-" + Collapse(t)
  {
    var s := [c] + t;
    assert s[1..] == t;
    assert DropRun(t) == t;
  }

  // ---------------------------------------------------------------------------
  // Files, paths and expiry

  const JSON_SUFFIX: string := ".json"

  /** `getCacheFilePath`: a `.json` file directly inside the cache directory, whose name
      gives the key back. */
  function CacheFilePath(cacheDir: string, key: string): (path: string)
    ensures StartsWith(path, cacheDir + "/")
    ensures var name := path[|cacheDir| + 1..]; IsJsonName(name) && KeyOf(name) == key
  {
    var path := cacheDir + "/" + FileName(key);
    assert path[..|cacheDir| + 1] == cacheDir + "/";
    assert path[|cacheDir| + 1..] == FileName(key);
    assert FileName(key)[..|key|] == key;
    path
  }

  /** The name of a key's file inside the cache directory. */
  function FileName(key: string): string {
    key + JSON_SUFFIX
  }

  /** `file.endsWith('.json')`. */
  predicate IsJsonName(name: string) {
    EndsWith(name, JSON_SUFFIX)
  }

  /** `file.replace(/\.json$/, '')` on a name that ends in `.json`. */
  function KeyOf(name: string): (key: string)
    requires IsJsonName(name)
    ensures FileName(key) == name
  {
    name[..|name| - |JSON_SUFFIX|]
  }

  /** The directory entry a key names, and the key a `.json` directory entry names, are
      inverse to each other. */
  lemma KeyFileRoundTrip(key: string, name: string)
    ensures IsJsonName(FileName(key)) && KeyOf(FileName(key)) == key
    ensures IsJsonName(name) ==> CacheFilePath("", KeyOf(name)) == "/" + name
  {
    assert FileName(key)[..|key|] == key;
  }

  /** The path `clearAllCacheEntries` and `getCacheInfo` build from a listed file name
      is the one `readCacheEntry` and `clearCacheEntry` build from its key. */
  lemma ListedPath(cacheDir: string, name: string)
    requires IsJsonName(name)
    ensures CacheFilePath(cacheDir, KeyOf(name)) == cacheDir + "/" + name
  {
  }

  /** `CacheMetadata`; instants are milliseconds since the epoch. */
  datatype CacheMetadata = CacheMetadata(key: string, path: string, cachedAt: int, expiresAt: Option<int>)

  /** `CacheEntry`. */
  datatype CacheEntry = CacheEntry(metadata: CacheMetadata, value: string)

  /** `isExpired`, with the clock reading `now` as a parameter. */
  predicate IsExpired(metadata: CacheMetadata, now: int) {
    metadata.expiresAt.Some? && now > metadata.expiresAt.value
  }

  /** Without an expiry an entry never expires; with one, it expires strictly after that
      instant and stays expired from then on. */
  lemma ExpiryMonotone(metadata: CacheMetadata, now: int, later: int)
    requires now <= later
    ensures metadata.expiresAt.None? ==> !IsExpired(metadata, later)
    ensures IsExpired(metadata, now) ==> IsExpired(metadata, later)
    ensures metadata.expiresAt.Some? ==> (IsExpired(metadata, now) <==> metadata.expiresAt.value < now)
  {
  }

  // ---------------------------------------------------------------------------
  // The cache directory

  /** One directory entry: its text (absent when reading fails), its size in bytes
      (absent when `stat` fails), and whether removing it succeeds. */
  datatype File = File(content: Option<string>, size: Option<nat>, removable: bool)

  /** The cache directory: whether it exists, whether listing it succeeds, the names
      a listing returns in its order, and the files by name. */
  datatype Dir = Dir(present: bool, listable: bool, names: seq<string>, files: map<string, File>)

  const ABSENT: Dir := Dir(false, false, [], map[])

  /** `fs.exists` of a file in the directory. */
  predicate Exists(d: Dir, name: string) {
    d.present && name in d.files
  }

  /** `fs.readDirectory`, which the operations turn into `[]` when it fails. */
  function Listing(d: Dir): seq<string> {
    if d.listable then d.names else []
  }

  function Without(names: seq<string>, name: string): (r: seq<string>)
    ensures forall n :: n in r <==> n in names && n != name
  {
    if names == [] then []
    else (if names[0] == name then [] else [names[0]]) + Without(names[1..], name)
  }

  /** The directory after one file is gone. */
  function Removed(d: Dir, name: string): Dir {
    d.(names := Without(d.names, name), files := d.files - {name})
  }

  /** `fs.remove`: whether it succeeded, and the directory afterwards. */
  function Remove(d: Dir, name: string): (r: (bool, Dir))
    ensures r.0 <==> Exists(d, name) && d.files[name].removable
    ensures r.1 == if r.0 then Removed(d, name) else d
  {
    if Exists(d, name) && d.files[name].removable then (true, Removed(d, name)) else (false, d)
  }

  /** What decoding a file's text gives: `JSON.parse` throws, the schema refuses the
      value, or a cache entry. */
  datatype Decoded = NotJson | Mismatch | Decoded(entry: CacheEntry)

  /** An operation's result, or a defect: a `JSON.parse` exception is thrown inside the
      generator and escapes every `catchAll`, so the command dies. */
  datatype Outcome<+T> = Done(value: T) | Died

  /** What an operation yields, and the directory it leaves. */
  datatype Ran<+T> = Ran(outcome: Outcome<T>, after: Dir)

  /** The file exists and reads as non-empty text. */
  predicate Readable(d: Dir, name: string) {
    Exists(d, name) && d.files[name].content.Some? && d.files[name].content.value != []
  }

  function Content(d: Dir, name: string): string
    requires Readable(d, name)
  {
    d.files[name].content.value
  }

  /** The directory entry holds the cache entry `e`. */
  predicate Holds(d: Dir, name: string, decode: string -> Decoded, e: CacheEntry) {
    Readable(d, name) && decode(Content(d, name)) == Decoded(e)
  }

  /** A directory entry whose text decodes to an entry that has expired at `now`. */
  predicate ExpiredFile(d: Dir, name: string, now: int, decode: string -> Decoded) {
    && Readable(d, name)
    && decode(Content(d, name)).Decoded?
    && IsExpired(decode(Content(d, name)).entry.metadata, now)
  }

  /** `d2` is `d` with, at most, some expired entries evicted. */
  predicate EvictsOnly(d: Dir, d2: Dir, now: int, decode: string -> Decoded) {
    && d2.present == d.present
    && (forall n | n in d2.files :: n in d.files && d2.files[n] == d.files[n])
    && (forall n | n in d.files && n !in d2.files :: ExpiredFile(d, n, now, decode))
  }

  /** `readCacheEntry`: nothing for a missing file, unreadable or empty text, or text the
      schema refuses; an expired entry is removed (a failing removal is ignored) and
      nothing returned; text that is not JSON kills the command. */
  function ReadCacheEntry(d: Dir, key: string, now: int, decode: string -> Decoded): (r: Ran<Option<CacheEntry>>)
    ensures (r.outcome.Done? && r.outcome.value.Some?) <==>
      (Readable(d, FileName(key)) && decode(Content(d, FileName(key))).Decoded?
       && !IsExpired(decode(Content(d, FileName(key))).entry.metadata, now))
    ensures r.outcome.Done? && r.outcome.value.Some? ==>
      Holds(d, FileName(key), decode, r.outcome.value.value) && r.after == d
    ensures r.outcome.Died? <==> Readable(d, FileName(key)) && decode(Content(d, FileName(key))).NotJson?
    ensures r.after == d || (ExpiredFile(d, FileName(key), now, decode) && r.after == Removed(d, FileName(key)))
    ensures ExpiredFile(d, FileName(key), now, decode) ==> r.after == Remove(d, FileName(key)).1
    ensures EvictsOnly(d, r.after, now, decode)
  {
    var name := FileName(key);
    if !Exists(d, name) then Ran(Done(None), d)
    else
      var content := d.files[name].content;
      if content.None? || content.value == [] then Ran(Done(None), d)
      else match decode(content.value)
        case NotJson => Ran(Died, d)
        case Mismatch => Ran(Done(None), d)
        case Decoded(e) =>
          if IsExpired(e.metadata, now) then Ran(Done(None), Remove(d, name).1)
          else Ran(Done(Some(e)), d)
  }

  /** `writeCacheEntry`: the directory is created if need be and the key's file gets the
      encoded entry; a failure anywhere is swallowed, leaving the directory as it was.
      A new name is listed last. */
  function WriteCacheEntry(d: Dir, entry: CacheEntry, encode: CacheEntry -> string, writeOk: bool): (r: Dir)
    ensures !writeOk ==> r == d
    ensures writeOk ==> (r.present && FileName(entry.metadata.key) in r.files
      && r.files[FileName(entry.metadata.key)].content == Some(encode(entry))
      && FileName(entry.metadata.key) in r.names)
    ensures forall n | n != FileName(entry.metadata.key) ::
      (n in r.files <==> n in d.files) && (n in r.files ==> r.files[n] == d.files[n])
  {
    if !writeOk then d
    else
      var name := FileName(entry.metadata.key);
      var content := encode(entry);
      Dir(
        true,
        if d.present then d.listable else true,
        if name in d.names then d.names else d.names + [name],
        d.files[name := File(Some(content), Some(|content|), true)])
  }

  /** No name is listed twice. */
  predicate Distinct(names: seq<string>) {
    forall i, j | 0 <= i < j < |names| :: names[i] != names[j]
  }

  /** Dropping a name from a listing without repeats leaves one without repeats. */
  lemma {:induction false} WithoutDistinct(names: seq<string>, name: string)
    requires Distinct(names)
    ensures Distinct(Without(names, name))
    decreases |names|
  {
    if names != [] {
      var rest := names[1..];
      assert Distinct(rest) by {
        forall i, j | 0 <= i < j < |rest| ensures rest[i] != rest[j] {
          assert rest[i] == names[i + 1] && rest[j] == names[j + 1];
        }
      }
      WithoutDistinct(rest, name);
      var head: seq<string> := if names[0] == name then [] else [names[0]];
      var tail := Without(rest, name);
      assert names[0] !in tail by {
        assert names[0] !in rest by {
          forall k | 0 <= k < |rest| ensures rest[k] != names[0] {
            assert rest[k] == names[k + 1];
          }
        }
      }
      assert Without(names, name) == head + tail;
    }
  }

  /** A directory state that can occur: an absent directory holds nothing, every name a
      listing returns is a file of the directory, and no name is listed twice. */
  predicate DirOk(d: Dir) {
    && (!d.present ==> d.names == [] && d.files == map[])
    && (forall n | n in d.names :: n in d.files)
    && Distinct(d.names)
  }

  /** Reading, writing and removing keep the directory well formed; in particular writing to
      an absent directory creates it holding the one file. */
  lemma DirOkKept(d: Dir, name: string, key: string, now: int, decode: string -> Decoded,
                  entry: CacheEntry, encode: CacheEntry -> string, writeOk: bool)
    requires DirOk(d)
    ensures DirOk(Remove(d, name).1)
    ensures DirOk(ReadCacheEntry(d, key, now, decode).after)
    ensures DirOk(WriteCacheEntry(d, entry, encode, writeOk))
    ensures writeOk && !d.present ==>
      var w := WriteCacheEntry(d, entry, encode, true);
      w.names == [FileName(entry.metadata.key)] && w.files.Keys == {FileName(entry.metadata.key)}
  {
    WithoutDistinct(d.names, name);
    WithoutDistinct(d.names, FileName(key));
  }

  /** Writing an entry and reading its key back, before it expires, gives the entry,
      provided the encoding is non-empty and decodes to what was encoded. */
  lemma WriteThenRead(d: Dir, e: CacheEntry, encode: CacheEntry -> string, decode: string -> Decoded, now: int)
    requires encode(e) != [] && decode(encode(e)) == Decoded(e)
    requires !IsExpired(e.metadata, now)
    ensures var w := WriteCacheEntry(d, e, encode, true);
      ReadCacheEntry(w, e.metadata.key, now, decode) == Ran(Done(Some(e)), w)
  {
  }

  // ---------------------------------------------------------------------------
  // Listing

  /** Puts an optional entry in front of what the rest of a listing yields. */
  function Cons(e: Option<CacheEntry>, rest: Ran<seq<CacheEntry>>): Ran<seq<CacheEntry>> {
    match rest.outcome
    case Died => rest
    case Done(es) => Ran(Done((if e.Some? then [e.value] else []) + es), rest.after)
  }

  /** The loop of `listCacheEntries` over a listing: each `.json` name is read as a key,
      in order, each read seeing the directory the previous one left. */
  function ListFrom(names: seq<string>, d: Dir, now: int, decode: string -> Decoded): Ran<seq<CacheEntry>>
    decreases |names|
  {
    if names == [] then Ran(Done([]), d)
    else if !IsJsonName(names[0]) then ListFrom(names[1..], d, now, decode)
    else
      var read := ReadCacheEntry(d, KeyOf(names[0]), now, decode);
      if read.outcome.Died? then Ran(Died, read.after)
      else Cons(read.outcome.value, ListFrom(names[1..], read.after, now, decode))
  }

  /** `listCacheEntries`: nothing for a missing directory; otherwise only expired files
      evicted, and, when no read dies, the unexpired entries are exactly those held by listed
      `.json` files. */
  function ListCacheEntries(d: Dir, now: int, decode: string -> Decoded): (r: Ran<seq<CacheEntry>>)
    ensures !d.present ==> r == Ran(Done([]), d)
    ensures EvictsOnly(d, r.after, now, decode)
    ensures r.outcome.Done? ==> forall e | e in r.outcome.value :: !IsExpired(e.metadata, now)
    ensures r.outcome.Done? ==> forall n, e | n in Listing(d) && IsJsonName(n) && Holds(d, n, decode, e) && !IsExpired(e.metadata, now) ::
      e in r.outcome.value
  {
    if !d.present then Ran(Done([]), d)
    else
      ListFromSound(Listing(d), d, now, decode);
      ListFromComplete(Listing(d), d, now, decode);
      ListFrom(Listing(d), d, now, decode)
  }

  function Prepend(es: seq<CacheEntry>, r: Ran<seq<CacheEntry>>): Ran<seq<CacheEntry>> {
    match r.outcome
    case Died => r
    case Done(rest) => Ran(Done(es + rest), r.after)
  }

  lemma PrependNothing(r: Ran<seq<CacheEntry>>)
    ensures Prepend([], r) == r
  {
    if r.outcome.Done? {
      assert [] + r.outcome.value == r.outcome.value;
    }
  }

  lemma PrependCons(es: seq<CacheEntry>, e: Option<CacheEntry>, rest: Ran<seq<CacheEntry>>)
    ensures Prepend(es, Cons(e, rest)) == Prepend(es + (if e.Some? then [e.value] else []), rest)
  {
    if rest.outcome.Done? {
      assert es + ((if e.Some? then [e.value] else []) + rest.outcome.value)
          == (es + (if e.Some? then [e.value] else [])) + rest.outcome.value;
    }
  }

  /** The `for` loop of `listCacheEntries`, pushing each entry it reads. */
  method ListEntries(d: Dir, now: int, decode: string -> Decoded) returns (r: Ran<seq<CacheEntry>>)
    ensures r == ListCacheEntries(d, now, decode)
  {
    if !d.present {
      return Ran(Done([]), d);
    }
    var files := Listing(d);
    var entries: seq<CacheEntry> := [];
    var current := d;
    var i := 0;
    assert files[0..] == files;
    PrependNothing(ListFrom(files, d, now, decode));
    while i < |files|
      invariant 0 <= i <= |files|
      invariant ListFrom(files, d, now, decode) == Prepend(entries, ListFrom(files[i..], current, now, decode))
    {
      var file := files[i];
      assert files[i..][0] == file && files[i..][1..] == files[i + 1..];
      if !IsJsonName(file) {
        i := i + 1;
        continue;
      }
      var read := ReadCacheEntry(current, KeyOf(file), now, decode);
      if read.outcome.Died? {
        return Ran(Died, read.after);
      }
      PrependCons(entries, read.outcome.value, ListFrom(files[i + 1..], read.after, now, decode));
      var found := if read.outcome.value.Some? then [read.outcome.value.value] else [];
      entries := entries + found;
      current := read.after;
      i := i + 1;
    }
    assert files[i..] == [];
    assert entries + [] == entries;
    r := Ran(Done(entries), current);
  }

  lemma EvictsOnlyTrans(d0: Dir, d1: Dir, d2: Dir, now: int, decode: string -> Decoded)
    requires EvictsOnly(d0, d1, now, decode) && EvictsOnly(d1, d2, now, decode)
    ensures EvictsOnly(d0, d2, now, decode)
  {
    forall n | n in d0.files && n !in d2.files
      ensures ExpiredFile(d0, n, now, decode)
    {
      if n in d1.files {
        assert ExpiredFile(d1, n, now, decode);
      }
    }
  }

  /** A `.json` file of the listing whose entry has expired and that can be removed. */
  predicate Evictable(names: seq<string>, d: Dir, n: string, now: int, decode: string -> Decoded) {
    n in names && IsJsonName(n) && ExpiredFile(d, n, now, decode) && d.files[n].removable
  }

  /** A listing that runs to its end has removed every listed `.json` file whose entry
      had expired, unless removing it failed. */
  lemma {:induction false} ListFromEvicts(names: seq<string>, d: Dir, now: int, decode: string -> Decoded)
    ensures var r := ListFrom(names, d, now, decode);
      r.outcome.Done? ==> forall n | Evictable(names, d, n, now, decode) :: n !in r.after.files
    decreases |names|
  {
    if names != [] {
      var rest := names[1..];
      if !IsJsonName(names[0]) {
        ListFromEvicts(rest, d, now, decode);
        forall n | Evictable(names, d, n, now, decode)
          ensures Evictable(rest, d, n, now, decode)
        {
          assert n != names[0];
        }
      } else {
        var read := ReadCacheEntry(d, KeyOf(names[0]), now, decode);
        if read.outcome.Done? {
          var tail := ListFrom(rest, read.after, now, decode);
          ListFromEvicts(rest, read.after, now, decode);
          ListFromSound(rest, read.after, now, decode);
          forall n | Evictable(names, d, n, now, decode) && tail.outcome.Done?
            ensures n !in tail.after.files
          {
            if n == names[0] {
              assert n !in read.after.files;
            } else if n in read.after.files {
              assert Evictable(rest, read.after, n, now, decode);
            }
          }
        }
      }
    }
  }

  /** A file still there after evictions holds what it held before. */
  lemma EvictedHeld(d: Dir, d2: Dir, n: string, e: CacheEntry, now: int, decode: string -> Decoded)
    requires EvictsOnly(d, d2, now, decode) && Holds(d2, n, decode, e)
    ensures Holds(d, n, decode, e)
  {
    assert d2.files[n] == d.files[n];
  }

  /** A listing returns only entries that have not expired, each read from a `.json`
      file the directory held beforehand; it evicts nothing but expired entries, and,
      when it runs to its end, every removable expired `.json` file of the listing. */
  lemma {:induction false} ListFromSound(names: seq<string>, d: Dir, now: int, decode: string -> Decoded)
    ensures var r := ListFrom(names, d, now, decode);
      && EvictsOnly(d, r.after, now, decode)
      && (r.outcome.Done? ==> forall e | e in r.outcome.value ::
            !IsExpired(e.metadata, now) && exists n | n in names :: IsJsonName(n) && Holds(d, n, decode, e))
    decreases |names|
  {
    if names != [] {
      var rest := names[1..];
      ListFromSound(rest, d, now, decode);
      if IsJsonName(names[0]) {
        var read := ReadCacheEntry(d, KeyOf(names[0]), now, decode);
        if read.outcome.Done? {
          ListFromSound(rest, read.after, now, decode);
          var tail := ListFrom(rest, read.after, now, decode);
          EvictsOnlyTrans(d, read.after, tail.after, now, decode);
          if tail.outcome.Done? {
            forall e | e in ListFrom(names, d, now, decode).outcome.value
              ensures !IsExpired(e.metadata, now) && exists n | n in names :: IsJsonName(n) && Holds(d, n, decode, e)
            {
              if read.outcome.value.Some? && e == read.outcome.value.value {
                assert names[0] in names;
              } else {
                assert e in tail.outcome.value;
                var n :| n in rest && IsJsonName(n) && Holds(read.after, n, decode, e);
                EvictedHeld(d, read.after, n, e, now, decode);
                assert n in names;
              }
            }
          }
        }
      } else {
        var tail := ListFrom(rest, d, now, decode);
        if tail.outcome.Done? {
          forall e | e in tail.outcome.value
            ensures exists n | n in names :: IsJsonName(n) && Holds(d, n, decode, e)
          {
            var n :| n in rest && IsJsonName(n) && Holds(d, n, decode, e);
            assert n in names;
          }
        }
      }
    }
  }

  /** A listed name whose file holds an entry that is still live at `now`. */
  predicate LiveAt(d: Dir, n: string, now: int, decode: string -> Decoded) {
    IsJsonName(n) && Readable(d, n) && decode(Content(d, n)).Decoded? && !IsExpired(decode(Content(d, n)).entry.metadata, now)
  }

  /** The live entries of a listing, in the listing's order, as the directory holds them:
      the reference definition the loop of `listCacheEntries` is measured against. */
  function LiveIn(names: seq<string>, d: Dir, now: int, decode: string -> Decoded): seq<CacheEntry>
    decreases |names|
  {
    if names == [] then []
    else (if LiveAt(d, names[0], now, decode) then [decode(Content(d, names[0])).entry] else []) + LiveIn(names[1..], d, now, decode)
  }

  /** Evicting expired files does not change which entries are live. */
  lemma {:induction false} LiveInEvicts(names: seq<string>, d: Dir, d2: Dir, now: int, decode: string -> Decoded)
    requires EvictsOnly(d, d2, now, decode)
    ensures LiveIn(names, d2, now, decode) == LiveIn(names, d, now, decode)
    decreases |names|
  {
    if names != [] {
      var n := names[0];
      if n in d2.files {
        assert d2.files[n] == d.files[n];
      } else if n in d.files {
        assert ExpiredFile(d, n, now, decode);
      }
      assert LiveAt(d2, n, now, decode) == LiveAt(d, n, now, decode);
      LiveInEvicts(names[1..], d, d2, now, decode);
    }
  }

  /** A missing directory holds no live entry. */
  lemma {:induction false} LiveInAbsent(names: seq<string>, d: Dir, now: int, decode: string -> Decoded)
    requires !d.present
    ensures LiveIn(names, d, now, decode) == []
    decreases |names|
  {
    if names != [] {
      LiveInAbsent(names[1..], d, now, decode);
    }
  }

  /** A loop that completes returns exactly the live entries of the listing, in order. */
  lemma {:induction false} ListFromIsLive(names: seq<string>, d: Dir, now: int, decode: string -> Decoded)
    ensures var r := ListFrom(names, d, now, decode);
      r.outcome.Done? ==> r.outcome.value == LiveIn(names, d, now, decode)
    decreases |names|
  {
    if names != [] {
      var rest := names[1..];
      if !IsJsonName(names[0]) {
        ListFromIsLive(rest, d, now, decode);
      } else {
        var read := ReadCacheEntry(d, KeyOf(names[0]), now, decode);
        KeyFileRoundTrip(KeyOf(names[0]), names[0]);
        if read.outcome.Done? {
          ListFromIsLive(rest, read.after, now, decode);
          LiveInEvicts(rest, d, read.after, now, decode);
          assert read.outcome.value.Some? <==> LiveAt(d, names[0], now, decode);
        }
      }
    }
  }

  /** Reading any key leaves a file that holds a live entry as it is: only an expired
      file is ever removed. */
  lemma ReadKeepsLive(d: Dir, key: string, n: string, e: CacheEntry, now: int, decode: string -> Decoded)
    requires Holds(d, n, decode, e) && !IsExpired(e.metadata, now)
    ensures Holds(ReadCacheEntry(d, key, now, decode).after, n, decode, e)
  {
    var r := ReadCacheEntry(d, key, now, decode);
    if r.after != d {
      assert FileName(key) != n;
      assert r.after.files[n] == d.files[n];
    }
  }

  /** Every live entry held by a listed `.json` file is returned by a loop that completes. */
  lemma {:induction false} ListFromComplete(names: seq<string>, d: Dir, now: int, decode: string -> Decoded)
    ensures var r := ListFrom(names, d, now, decode);
      r.outcome.Done? ==> forall n, e | n in names && IsJsonName(n) && Holds(d, n, decode, e) && !IsExpired(e.metadata, now) ::
        e in r.outcome.value
    decreases |names|
  {
    if names != [] {
      var rest := names[1..];
      var r := ListFrom(names, d, now, decode);
      if !IsJsonName(names[0]) {
        ListFromComplete(rest, d, now, decode);
        forall n, e | n in names && IsJsonName(n) && Holds(d, n, decode, e) && !IsExpired(e.metadata, now) && r.outcome.Done?
          ensures e in r.outcome.value
        {
          assert n in rest;
        }
      } else {
        var read := ReadCacheEntry(d, KeyOf(names[0]), now, decode);
        if read.outcome.Done? {
          ListFromComplete(rest, read.after, now, decode);
          var tail := ListFrom(rest, read.after, now, decode);
          forall n, e | n in names && IsJsonName(n) && Holds(d, n, decode, e) && !IsExpired(e.metadata, now) && r.outcome.Done?
            ensures e in r.outcome.value
          {
            ReadKeepsLive(d, KeyOf(names[0]), n, e, now, decode);
            if n == names[0] {
              KeyFileRoundTrip(KeyOf(n), n);
              assert read.outcome.value == Some(e);
            } else {
              assert n in rest;
              assert e in tail.outcome.value;
            }
          }
        }
      }
    }
  }

  /** `listCacheEntries` returns exactly the valid, unexpired entries of the listed
      `.json` files, in listing order; the only files it removes are expired ones, and
      once it has run to its end every listed `.json` file holding an expired entry is
      gone, unless it could not be removed. */
  lemma ListSound(d: Dir, now: int, decode: string -> Decoded)
    ensures var r := ListCacheEntries(d, now, decode);
      && EvictsOnly(d, r.after, now, decode)
      && (r.outcome.Done? ==> forall e | e in r.outcome.value ::
            !IsExpired(e.metadata, now) && exists n | n in d.names :: IsJsonName(n) && Holds(d, n, decode, e))
      && (r.outcome.Done? ==> forall n | Evictable(Listing(d), d, n, now, decode) :: n !in r.after.files)
      && (r.outcome.Done? ==> forall n, e | n in Listing(d) && IsJsonName(n) && Holds(d, n, decode, e) && !IsExpired(e.metadata, now) ::
            e in r.outcome.value)
      && (r.outcome.Done? ==> r.outcome.value == LiveIn(Listing(d), d, now, decode))
  {
    if d.present {
      ListFromSound(Listing(d), d, now, decode);
      ListFromEvicts(Listing(d), d, now, decode);
      ListFromComplete(Listing(d), d, now, decode);
      ListFromIsLive(Listing(d), d, now, decode);
    } else {
      LiveInAbsent(Listing(d), d, now, decode);
    }
  }

  // ---------------------------------------------------------------------------
  // Clearing

  /** `clearCacheEntry`: true exactly when the key's file existed and was removed; a
      failed removal is caught and reported as false. */
  function ClearCacheEntry(d: Dir, key: string): (r: (bool, Dir))
    ensures r.0 <==> Exists(d, FileName(key)) && d.files[FileName(key)].removable
    ensures r.0 ==> FileName(key) !in r.1.files
    ensures forall n | n != FileName(key) :: (n in r.1.files <==> n in d.files) && (n in r.1.files ==> r.1.files[n] == d.files[n])
    ensures !r.0 ==> r.1 == d
  {
    var name := FileName(key);
    if !Exists(d, name) then (false, d) else Remove(d, name)
  }

  /** The keys of the `.json` names of a listing, in listing order. */
  function JsonKeys(names: seq<string>): (keys: seq<string>)
    ensures |keys| <= |names|
  {
    if names == [] then []
    else (if IsJsonName(names[0]) then [KeyOf(names[0])] else []) + JsonKeys(names[1..])
  }

  /** The loop of `clearAllCacheEntries`: every `.json` name is removed (failures
      ignored) and its key reported. */
  function ClearFrom(names: seq<string>, d: Dir): (seq<string>, Dir)
    decreases |names|
  {
    if names == [] then ([], d)
    else if !IsJsonName(names[0]) then ClearFrom(names[1..], d)
    else
      var rest := ClearFrom(names[1..], Remove(d, names[0]).1);
      ([KeyOf(names[0])] + rest.0, rest.1)
  }

  /** `clearAllCacheEntries`: the keys of the listed `.json` names, in order, and a
      directory holding nothing it did not hold before. */
  function ClearAllCacheEntries(d: Dir): (r: (seq<string>, Dir))
    ensures r.0 == (if d.present then JsonKeys(Listing(d)) else [])
    ensures r.1.present == d.present
    ensures forall n | n in r.1.files :: n in d.files && r.1.files[n] == d.files[n]
  {
    if !d.present then ([], d)
    else
      ClearFromEffect(Listing(d), d);
      ClearFrom(Listing(d), d)
  }

  /** The `for` loop of `clearAllCacheEntries`. */
  method ClearAll(d: Dir) returns (cleared: seq<string>, after: Dir)
    ensures (cleared, after) == ClearAllCacheEntries(d)
  {
    if !d.present {
      return [], d;
    }
    var files := Listing(d);
    cleared := [];
    after := d;
    assert files[0..] == files;
    var whole := ClearFrom(files, d);
    assert [] + whole.0 == whole.0;
    assert whole == (whole.0, whole.1);
    for i := 0 to |files|
      invariant ClearFrom(files, d) == (cleared + ClearFrom(files[i..], after).0, ClearFrom(files[i..], after).1)
    {
      var file := files[i];
      assert files[i..][0] == file && files[i..][1..] == files[i + 1..];
      if IsJsonName(file) {
        var removal := Remove(after, file);
        var rest := ClearFrom(files[i + 1..], removal.1);
        assert cleared + ([KeyOf(file)] + rest.0) == (cleared + [KeyOf(file)]) + rest.0;
        after := removal.1;
        cleared := cleared + [KeyOf(file)];
      }
    }
    assert files[|files|..] == [];
    assert cleared + [] == cleared;
  }

  /** Clearing a listing reports exactly the keys of its `.json` names in order, removes
      every removable one, and leaves other names and files untouched. */
  lemma {:induction false} ClearFromEffect(names: seq<string>, d: Dir)
    ensures var r := ClearFrom(names, d);
      && r.0 == JsonKeys(names)
      && r.1.present == d.present
      && (forall n | n in names && IsJsonName(n) && Exists(d, n) && d.files[n].removable :: n !in r.1.files)
      && (forall n | n in r.1.files :: n in d.files && r.1.files[n] == d.files[n])
      && (forall n | n in d.files && (!IsJsonName(n) || n !in names) :: n in r.1.files)
    decreases |names|
  {
    if names != [] {
      if IsJsonName(names[0]) {
        var d1 := Remove(d, names[0]).1;
        ClearFromEffect(names[1..], d1);
      } else {
        ClearFromEffect(names[1..], d);
      }
    }
  }

  /** `clearAllCacheEntries` returns the keys of all listed `.json` files in directory
      order, removes each such file that can be removed, and touches nothing else. */
  lemma ClearAllEffect(d: Dir)
    ensures var r := ClearAllCacheEntries(d);
      && r.0 == (if d.present then JsonKeys(Listing(d)) else [])
      && (forall n | n in Listing(d) && IsJsonName(n) && Exists(d, n) && d.files[n].removable :: n !in r.1.files)
      && (forall n | n in r.1.files :: n in d.files && r.1.files[n] == d.files[n])
      && (forall n | n in d.files && !IsJsonName(n) :: n in r.1.files)
  {
    if d.present {
      ClearFromEffect(Listing(d), d);
    }
  }

  // ---------------------------------------------------------------------------
  // Information

  /** The result of `getCacheInfo`. */
  datatype CacheInfo = CacheInfo(cacheDir: string, count: nat, totalSize: nat)

  /** `fs.stat(...).size`, with a failing stat counted as 0. */
  function StatSize(d: Dir, name: string): nat {
    if name in d.files && d.files[name].size.Some? then d.files[name].size.value else 0
  }

  /** The `.json` names of a listing, in order. */
  function JsonNames(names: seq<string>): seq<string> {
    if names == [] then []
    else (if IsJsonName(names[0]) then [names[0]] else []) + JsonNames(names[1..])
  }

  /** The filter keeps exactly the `.json` names, as many as there are keys. */
  lemma {:induction false} JsonNamesMembers(names: seq<string>)
    ensures forall n :: n in JsonNames(names) <==> n in names && IsJsonName(n)
    ensures |JsonNames(names)| == |JsonKeys(names)|
  {
    if names != [] {
      JsonNamesMembers(names[1..]);
      assert forall n :: n in names <==> n == names[0] || n in names[1..];
    }
  }

  /** The sum of the stat sizes of some names. */
  function SizeSum(names: seq<string>, d: Dir): nat {
    if names == [] then 0 else StatSize(d, names[0]) + SizeSum(names[1..], d)
  }

  lemma {:induction false} SizeSumAppend(a: seq<string>, b: seq<string>, d: Dir)
    ensures SizeSum(a + b, d) == SizeSum(a, d) + SizeSum(b, d)
  {
    if a == [] {
      assert a + b == b;
    } else {
      assert (a + b)[0] == a[0] && (a + b)[1..] == a[1..] + b;
      SizeSumAppend(a[1..], b, d);
    }
  }

  /** Count and total size of the `.json` names of a listing. */
  function Tally(names: seq<string>, d: Dir): (t: (nat, nat))
    ensures t.0 == |JsonKeys(names)|
    ensures t.0 == 0 ==> t.1 == 0
  {
    if names == [] then (0, 0)
    else
      var rest := Tally(names[1..], d);
      if IsJsonName(names[0]) then (rest.0 + 1, rest.1 + StatSize(d, names[0])) else rest
  }

  /** The loop's running total is the sum of the stat sizes of the `.json` names alone:
      other names add nothing, and a failing stat adds 0. */
  lemma {:induction false} TallyIsJsonSizes(names: seq<string>, d: Dir)
    ensures Tally(names, d).1 == SizeSum(JsonNames(names), d)
  {
    if names != [] {
      TallyIsJsonSizes(names[1..], d);
      var head := if IsJsonName(names[0]) then [names[0]] else [];
      SizeSumAppend(head, JsonNames(names[1..]), d);
      assert SizeSum(head, d) == (if IsJsonName(names[0]) then StatSize(d, names[0]) else 0) by {
        if IsJsonName(names[0]) {
          assert head[1..] == [];
        }
      }
    }
  }

  /** One name counts once with its stat size when it is a `.json` name, and not at all
      otherwise. */
  lemma TallyOne(name: string, d: Dir)
    ensures Tally([name], d) == if IsJsonName(name) then (1, StatSize(d, name)) else (0, 0)
  {
    assert [name][1..] == [];
  }

  lemma {:induction false} JsonNamesAppend(a: seq<string>, b: seq<string>)
    ensures JsonNames(a + b) == JsonNames(a) + JsonNames(b)
  {
    if a == [] {
      assert a + b == b;
    } else {
      assert (a + b)[0] == a[0] && (a + b)[1..] == a[1..] + b;
      JsonNamesAppend(a[1..], b);
    }
  }

  lemma {:induction false} JsonKeysAppend(a: seq<string>, b: seq<string>)
    ensures |JsonKeys(a + b)| == |JsonKeys(a)| + |JsonKeys(b)|
  {
    if a == [] {
      assert a + b == b;
    } else {
      assert (a + b)[0] == a[0] && (a + b)[1..] == a[1..] + b;
      JsonKeysAppend(a[1..], b);
    }
  }

  /** Count and size add up over the parts of a listing. */
  lemma TallyAppend(a: seq<string>, b: seq<string>, d: Dir)
    ensures Tally(a + b, d).0 == Tally(a, d).0 + Tally(b, d).0
    ensures Tally(a + b, d).1 == Tally(a, d).1 + Tally(b, d).1
  {
    JsonKeysAppend(a, b);
    TallyIsJsonSizes(a + b, d);
    TallyIsJsonSizes(a, d);
    TallyIsJsonSizes(b, d);
    JsonNamesAppend(a, b);
    SizeSumAppend(JsonNames(a), JsonNames(b), d);
  }

  /** `getCacheInfo`: zeros for a missing or unreadable directory; otherwise the number of
      `.json` names and the sum of their stat sizes. */
  function GetCacheInfo(cacheDir: string, d: Dir): (info: CacheInfo)
    ensures info.cacheDir == cacheDir
    ensures !d.present || !d.listable ==> info.count == 0 && info.totalSize == 0
    ensures d.present && d.listable ==>
      info.count == |JsonKeys(d.names)| && info.totalSize == SizeSum(JsonNames(d.names), d)
  {
    if !d.present then CacheInfo(cacheDir, 0, 0)
    else
      var t := Tally(Listing(d), d);
      TallyIsJsonSizes(Listing(d), d);
      CacheInfo(cacheDir, t.0, t.1)
  }

  /** One step of the counting loop. */
  lemma TallyAt(files: seq<string>, i: nat, d: Dir)
    requires i < |files|
    ensures Tally(files[i..], d).0 == Tally(files[i + 1..], d).0 + (if IsJsonName(files[i]) then 1 else 0)
    ensures Tally(files[i..], d).1 == Tally(files[i + 1..], d).1 + (if IsJsonName(files[i]) then StatSize(d, files[i]) else 0)
  {
    assert files[i..][0] == files[i] && files[i..][1..] == files[i + 1..];
  }

  /** The counting loop of `getCacheInfo`. */
  method CacheInfoOf(cacheDir: string, d: Dir) returns (info: CacheInfo)
    ensures info == GetCacheInfo(cacheDir, d)
  {
    if !d.present {
      return CacheInfo(cacheDir, 0, 0);
    }
    var files := Listing(d);
    var count := 0;
    var totalSize := 0;
    assert files[0..] == files;
    for i := 0 to |files|
      invariant Tally(files, d).0 == count + Tally(files[i..], d).0
      invariant Tally(files, d).1 == totalSize + Tally(files[i..], d).1
    {
      var file := files[i];
      TallyAt(files, i, d);
      if IsJsonName(file) {
        count := count + 1;
        totalSize := totalSize + StatSize(d, file);
      }
    }
    assert files[|files|..] == [];
    info := CacheInfo(cacheDir, count, totalSize);
  }

  /** The count `getCacheInfo` reports is the number of keys `clearAllCacheEntries` would
      report for the same directory. */
  lemma InfoCountsClearable(cacheDir: string, d: Dir)
    ensures GetCacheInfo(cacheDir, d).count == |ClearAllCacheEntries(d).0|
  {
    ClearAllEffect(d);
  }
}
