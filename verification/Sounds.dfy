/**
 The sound library (`audio/sounds.rs`): listing two directories and resolving ids
 against them. A directory that `read_dir` can open is the sequence of entries it
 yields; an entry whose metadata cannot be read (a dangling link) does not exist.
 Every other path, however an id spells it, exists or not as the library says.
 */
module Sounds {
  import opened Common
  import Utf8

  datatype Source = Builtin | Custom

  type FileName = s: string | s != "" && '/' !in s && '\0' !in s witness "a"

  datatype Entry = Unreadable | File(name: FileName, size: Option<nat>)

  /** `Closed` is a directory that is missing or cannot be read; its files may still be reached by name. */
  datatype Directory = Closed(path: string) | Open(path: string, entries: seq<Entry>)

  /** `elsewhere` is the set of existing paths other than entries of the open directories. */
  datatype Library = Library(builtin: Directory, custom: Directory, elsewhere: set<string>) {
    function Dir(source: Source): Directory {
      if source == Builtin then builtin else custom
    }
  }

  datatype Summary = Summary(id: string, name: string, source: Source, bytes: nat)

  datatype SoundError = Io | InvalidSoundId(id: string) | UnknownSound(id: string)

  function Prefix(source: Source): string {
    match source
    case Builtin => "builtin:"
    case Custom => "custom:"
  }

  // File names

  /** Index of the last dot, or -1. */
  function LastDot(name: string): (i: int)
    ensures -1 <= i < |name|
    ensures i >= 0 ==> name[i] == '.'
  {
    if name == [] then -1
    else if name[|name| - 1] == '.' then |name| - 1
    else LastDot(name[..|name| - 1])
  }

  /** `Path::extension`: a leading dot does not start one. */
  function Extension(name: string): Option<string> {
    if LastDot(name) <= 0 then None else Some(name[LastDot(name) + 1..])
  }

  /** `Path::file_stem`. */
  function Stem(name: string): string {
    if LastDot(name) <= 0 then name else name[..LastDot(name)]
  }

  predicate IsSound(name: string) {
    Extension(name) == Some("wav") || Extension(name) == Some("flac")
  }

  lemma {:induction false} LastDotOf(stem: string, ext: string)
    requires '.' !in ext
    ensures LastDot(stem + "." + ext) == |stem|
  {
    var name := stem + "." + ext;
    if ext != [] {
      var shorter := ext[..|ext| - 1];
      LastDotOf(stem, shorter);
      assert name[..|name| - 1] == stem + "." + shorter;
      assert name[|name| - 1] == ext[|ext| - 1];
    }
  }

  lemma SplitOf(stem: string, ext: string)
    requires stem != "" && '.' !in ext
    ensures Stem(stem + "." + ext) == stem && Extension(stem + "." + ext) == Some(ext)
  {
    LastDotOf(stem, ext);
    var name := stem + "." + ext;
    assert name[..|stem|] == stem && name[|stem| + 1..] == ext;
  }

  lemma SplitJoins(name: string)
    requires Extension(name).Some?
    ensures Stem(name) != "" && name == Stem(name) + "." + Extension(name).value
  {
  }

  // Order on ids

  /** Code point order. */
  predicate Less(a: string, b: string) {
    b != [] && (a == [] || a[0] < b[0] || (a[0] == b[0] && Less(a[1..], b[1..])))
  }

  lemma {:induction false} LessTransitive(a: string, b: string, c: string)
    requires Less(a, b) && Less(b, c)
    ensures Less(a, c)
    decreases a
  {
    if a != [] && a[0] == b[0] && b[0] == c[0] {
      LessTransitive(a[1..], b[1..], c[1..]);
    }
  }

  lemma {:induction false} LessIrreflexive(a: string)
    ensures !Less(a, a)
  {
    if a != [] {
      LessIrreflexive(a[1..]);
    }
  }

  lemma {:induction false} LessTotal(a: string, b: string)
    ensures Less(a, b) || a == b || Less(b, a)
    decreases a
  {
    if a != [] && b != [] && a[0] == b[0] {
      LessTotal(a[1..], b[1..]);
      assert a == [a[0]] + a[1..] && b == [b[0]] + b[1..];
    }
  }

  /** Byte order, by which Rust compares strings. */
  predicate BytesLess(a: seq<byte>, b: seq<byte>) {
    b != [] && (a == [] || a[0] < b[0] || (a[0] == b[0] && BytesLess(a[1..], b[1..])))
  }

  lemma {:induction false} BytesLessAt(a: seq<byte>, b: seq<byte>, i: nat)
    requires i < |a| && i < |b| && a[..i] == b[..i] && a[i] < b[i]
    ensures BytesLess(a, b)
  {
    if i > 0 {
      assert a[0] == a[..i][0] == b[..i][0] == b[0];
      assert a[1..][..i - 1] == a[..i][1..] && b[1..][..i - 1] == b[..i][1..];
      BytesLessAt(a[1..], b[1..], i - 1);
    }
  }

  lemma {:induction false} BytesLessAsymmetric(a: seq<byte>, b: seq<byte>)
    requires BytesLess(a, b)
    ensures !BytesLess(b, a)
  {
    if a != [] && a[0] == b[0] {
      BytesLessAsymmetric(a[1..], b[1..]);
    }
  }

  lemma {:induction false} BytesLessPrefix(p: seq<byte>, a: seq<byte>, b: seq<byte>)
    requires BytesLess(a, b)
    ensures BytesLess(p + a, p + b)
  {
    if p == [] {
      assert p + a == a && p + b == b;
    } else {
      BytesLessPrefix(p[1..], a, b);
      assert (p + a)[1..] == p[1..] + a && (p + b)[1..] == p[1..] + b;
    }
  }

  lemma WidthsOrder(c: char, d: char)
    requires c < d
    ensures var x, y := Utf8.EncodeChar(c), Utf8.EncodeChar(d);
            |x| == |y| || (|x| < |y| && x[0] < y[0])
  {
  }

  /** Encodings of two characters first differ inside both, and in the order of the characters. */
  lemma CharsDiffer(c: char, d: char) returns (i: nat)
    requires c < d
    ensures var x, y := Utf8.EncodeChar(c), Utf8.EncodeChar(d);
            i < |x| && i < |y| && x[..i] == y[..i] && x[i] < y[i]
  {
    var x, y := Utf8.EncodeChar(c), Utf8.EncodeChar(d);
    WidthsOrder(c, d);
    Utf8.EncodeCharTable(c);
    Utf8.EncodeCharTable(d);
    i := if x[0] != y[0] || |x| != |y| then 0
         else if |x| > 1 && x[1] != y[1] then 1
         else if |x| > 2 && x[2] != y[2] then 2
         else 3;
  }

  lemma {:induction false} LessEncodes(a: string, b: string)
    requires Less(a, b)
    ensures BytesLess(Utf8.Encode(a), Utf8.Encode(b))
  {
    if a != [] {
      var x, y := Utf8.EncodeChar(a[0]), Utf8.EncodeChar(b[0]);
      if a[0] == b[0] {
        LessEncodes(a[1..], b[1..]);
        BytesLessPrefix(x, Utf8.Encode(a[1..]), Utf8.Encode(b[1..]));
      } else {
        var i := CharsDiffer(a[0], b[0]);
        var p, q := Utf8.Encode(a), Utf8.Encode(b);
        assert p[..i] == x[..i] && q[..i] == y[..i] && p[i] == x[i] && q[i] == y[i];
        BytesLessAt(p, q, i);
      }
    }
  }

  /** Code point order is the byte order of the encodings, so ascending means ascending for a `BTreeMap<String, _>`. */
  lemma LessIsByteOrder(a: string, b: string)
    ensures Less(a, b) <==> BytesLess(Utf8.Encode(a), Utf8.Encode(b))
  {
    LessTotal(a, b);
    if Less(a, b) {
      LessEncodes(a, b);
    } else if a == b {
      if BytesLess(Utf8.Encode(a), Utf8.Encode(b)) {
        BytesLessAsymmetric(Utf8.Encode(a), Utf8.Encode(b));
      }
    } else {
      LessEncodes(b, a);
      BytesLessAsymmetric(Utf8.Encode(b), Utf8.Encode(a));
    }
  }

  predicate Ascending(ids: seq<string>) {
    forall i, j :: 0 <= i < j < |ids| ==> Less(ids[i], ids[j])
  }

  function Ids(sounds: seq<Summary>): (ids: seq<string>)
    ensures |ids| == |sounds|
  {
    seq(|sounds|, i requires 0 <= i < |sounds| => sounds[i].id)
  }

  /** A set of ids can be listed in ascending order in one way only. */
  lemma {:induction false} AscendingUnique(a: seq<string>, b: seq<string>)
    requires Ascending(a) && Ascending(b) && forall x :: x in a <==> x in b
    ensures a == b
  {
    EmptyTogether(a, b);
    if a != [] {
      FirstIsFirst(a, b);
      AscendingTail(a);
      AscendingTail(b);
      forall x ensures x in a[1..] <==> x in b[1..] {
        assert x in a <==> x in b;
      }
      AscendingUnique(a[1..], b[1..]);
      assert a == [a[0]] + a[1..] && b == [b[0]] + b[1..];
    }
  }

  lemma EmptyTogether(a: seq<string>, b: seq<string>)
    requires forall x :: x in a <==> x in b
    ensures a == [] <==> b == []
  {
    if a != [] {
      assert a[0] in b;
    }
    if b != [] {
      assert b[0] in a;
    }
  }

  lemma FirstIsFirst(a: seq<string>, b: seq<string>)
    requires Ascending(a) && Ascending(b) && a != [] && b != [] && forall x :: x in a <==> x in b
    ensures a[0] == b[0]
  {
    assert a[0] in b && b[0] in a;
    var j :| 0 <= j < |b| && b[j] == a[0];
    var i :| 0 <= i < |a| && a[i] == b[0];
    if j > 0 && i > 0 {
      LessTransitive(a[0], b[0], a[0]);
      LessIrreflexive(a[0]);
    }
  }

  lemma AscendingTail(a: seq<string>)
    requires Ascending(a) && a != []
    ensures Ascending(a[1..])
    ensures forall x :: x in a[1..] <==> x in a && x != a[0]
  {
    assert a == [a[0]] + a[1..];
    LessIrreflexive(a[0]);
    forall i | 0 <= i < |a[1..]| ensures a[1..][i] != a[0] {
      assert Less(a[0], a[i + 1]);
    }
  }

  // Listing

  /** `BTreeMap::insert`, with the map as its ascending list of values. */
  function Insert(sounds: seq<Summary>, s: Summary): seq<Summary> {
    if sounds == [] || Less(s.id, sounds[0].id) then [s] + sounds
    else if s.id == sounds[0].id then [s] + sounds[1..]
    else [sounds[0]] + Insert(sounds[1..], s)
  }

  lemma {:induction false} InsertIds(sounds: seq<Summary>, s: Summary)
    requires Ascending(Ids(sounds))
    ensures Ascending(Ids(Insert(sounds, s)))
    ensures forall x :: x in Ids(Insert(sounds, s)) <==> x in Ids(sounds) || x == s.id
  {
    var ids := Ids(sounds);
    if sounds == [] || Less(s.id, sounds[0].id) {
      assert Ids([s] + sounds) == [s.id] + ids;
      forall j | 0 <= j < |ids| ensures sounds == [] || Less(s.id, ids[j]) {
        if j > 0 {
          LessTransitive(s.id, ids[0], ids[j]);
        }
      }
    } else if s.id == sounds[0].id {
      assert Ids([s] + sounds[1..]) == ids;
      assert s.id == ids[0] && ids[0] in ids;
    } else {
      var rest := sounds[1..];
      assert Ids(rest) == ids[1..];
      AscendingTail(ids);
      InsertIds(rest, s);
      assert Ids([sounds[0]] + Insert(rest, s)) == [ids[0]] + Ids(Insert(rest, s));
      LessTotal(s.id, ids[0]);
      InsertKeepsFirst(ids, Ids(Insert(rest, s)), s.id);
    }
  }

  lemma IdsOf(sounds: seq<Summary>)
    ensures forall x :: x in sounds ==> x.id in Ids(sounds)
  {
    forall x | x in sounds ensures x.id in Ids(sounds) {
      var i :| 0 <= i < |sounds| && sounds[i] == x;
      assert Ids(sounds)[i] == x.id;
    }
  }

  /** Inserting replaces the value of the same id and keeps the others. */
  lemma {:induction false} InsertValues(sounds: seq<Summary>, s: Summary)
    requires Ascending(Ids(sounds))
    ensures forall x :: x in Insert(sounds, s) <==> x == s || (x in sounds && x.id != s.id)
  {
    var ids := Ids(sounds);
    if sounds == [] {
    } else if Less(s.id, ids[0]) {
      forall j | 0 <= j < |ids| ensures ids[j] != s.id {
        LessIrreflexive(s.id);
        if j > 0 {
          LessTransitive(s.id, ids[0], ids[j]);
        }
      }
      IdsOf(sounds);
    } else {
      var rest := sounds[1..];
      assert Ids(rest) == ids[1..] && sounds == [sounds[0]] + rest;
      AscendingTail(ids);
      IdsOf(rest);
      if s.id != ids[0] {
        InsertValues(rest, s);
      }
    }
  }

  lemma InsertKeepsFirst(ids: seq<string>, tail: seq<string>, id: string)
    requires ids != [] && Ascending(ids) && Ascending(tail) && Less(ids[0], id)
    requires forall x :: x in tail <==> x in ids[1..] || x == id
    ensures Ascending([ids[0]] + tail)
    ensures forall x :: x in [ids[0]] + tail <==> x in ids || x == id
  {
    forall j | 0 <= j < |tail| ensures Less(ids[0], tail[j]) {
      assert tail[j] in tail;
      if tail[j] != id {
        var i :| 0 <= i < |ids[1..]| && ids[1..][i] == tail[j];
        assert Less(ids[0], ids[i + 1]);
      }
    }
    assert ids == [ids[0]] + ids[1..];
  }

  /** `read_dir` and the metadata of every sound can be read. */
  predicate Readable(dir: Directory) {
    dir.Open? ==> forall e :: e in dir.entries ==> EntryReadable(e)
  }

  predicate EntryReadable(e: Entry) {
    e.File? && (IsSound(e.name) ==> e.size.Some?)
  }

  /** Some entry of the first `n` is listed under this id. */
  ghost predicate ListedWithin(entries: seq<Entry>, n: nat, source: Source, id: string)
    requires n <= |entries|
  {
    exists i :: 0 <= i < n && Lists(entries[i], source, id)
  }

  predicate Lists(e: Entry, source: Source, id: string) {
    e.File? && IsSound(e.name) && id == Prefix(source) + Stem(e.name)
  }

  /** Entry `i` is the last of the first `n` listed under the summary's id, and what the summary tells. */
  predicate Tells(entries: seq<Entry>, n: nat, source: Source, s: Summary, i: nat)
    requires n <= |entries|
  {
    && i < n && Describes(entries[i], source, s)
    && forall j :: i < j < n ==> !Lists(entries[j], source, s.id)
  }

  ghost predicate ToldWithin(entries: seq<Entry>, n: nat, source: Source, s: Summary)
    requires n <= |entries|
  {
    exists i :: Tells(entries, n, source, s, i)
  }

  ghost predicate Told(dir: Directory, source: Source, s: Summary) {
    dir.Open? && ToldWithin(dir.entries, |dir.entries|, source, s)
  }

  lemma ToldOneMore(entries: seq<Entry>, n: nat, source: Source, s: Summary)
    requires n < |entries| && ToldWithin(entries, n, source, s) && !Lists(entries[n], source, s.id)
    ensures ToldWithin(entries, n + 1, source, s)
  {
    var i :| Tells(entries, n, source, s, i);
    assert Tells(entries, n + 1, source, s, i);
  }

  ghost predicate Listed(dir: Directory, source: Source, id: string) {
    dir.Open? && ListedWithin(dir.entries, |dir.entries|, source, id)
  }

  lemma ListedOneMore(entries: seq<Entry>, n: nat, source: Source)
    requires n < |entries|
    ensures forall id :: ListedWithin(entries, n + 1, source, id)
                         <==> ListedWithin(entries, n, source, id) || Lists(entries[n], source, id)
  {
  }

  /** `after` is `sounds` with the entry collected: in order, listing its id, and telling of it what its last entry says. */
  ghost predicate Collected(e: Entry, source: Source, sounds: seq<Summary>, after: seq<Summary>) {
    && Ascending(Ids(after))
    && (forall id :: id in Ids(after) <==> id in Ids(sounds) || Lists(e, source, id))
    && (forall s :: s in after <==> Describes(e, source, s) || (s in sounds && !Lists(e, source, s.id)))
  }

  /** The same for the first `n` entries. */
  ghost predicate Gathered(entries: seq<Entry>, n: nat, source: Source, before: seq<Summary>, sounds: seq<Summary>)
    requires n <= |entries|
  {
    && Ascending(Ids(sounds))
    && (forall id :: id in Ids(sounds) <==> id in Ids(before) || ListedWithin(entries, n, source, id))
    && (forall s :: s in sounds ==> s in before || ToldWithin(entries, n, source, s))
  }

  lemma GatherNext(entries: seq<Entry>, n: nat, source: Source, before: seq<Summary>, sounds: seq<Summary>, after: seq<Summary>)
    requires n < |entries| && Gathered(entries, n, source, before, sounds) && Collected(entries[n], source, sounds, after)
    ensures Gathered(entries, n + 1, source, before, after)
  {
    ListedOneMore(entries, n, source);
    forall s | s in after && s !in before ensures ToldWithin(entries, n + 1, source, s) {
      if Describes(entries[n], source, s) {
        assert Tells(entries, n + 1, source, s, n);
      } else {
        ToldOneMore(entries, n, source, s);
      }
    }
  }

  lemma InsertCollected(e: Entry, source: Source, sounds: seq<Summary>, s: Summary)
    requires Ascending(Ids(sounds)) && Describes(e, source, s)
    ensures Collected(e, source, sounds, Insert(sounds, s))
  {
    InsertIds(sounds, s);
    InsertValues(sounds, s);
    forall x ensures Describes(e, source, x) <==> x == s {
      if Describes(e, source, x) {
        assert x == Summary(s.id, s.name, s.source, s.bytes);
      }
    }
  }

  /** `collect`. */
  method Collect(dir: Directory, source: Source, before: seq<Summary>) returns (r: Result<seq<Summary>, SoundError>)
    requires Ascending(Ids(before))
    ensures r.Ok? <==> Readable(dir)
    ensures r.Ok? && dir.Closed? ==> r.value == before
    ensures r.Ok? && dir.Open? ==> Gathered(dir.entries, |dir.entries|, source, before, r.value)
    ensures r.Err? ==> r.error == Io
  {
    if dir.Closed? {
      return Ok(before);
    }
    r := Ok(before);
    for i := 0 to |dir.entries|
      invariant r.Ok? <==> forall j :: 0 <= j < i ==> EntryReadable(dir.entries[j])
      invariant r.Ok? ==> Gathered(dir.entries, i, source, before, r.value)
      invariant r.Err? ==> r.error == Io
    {
      if r.Ok? {
        ghost var sounds := r.value;
        r := CollectEntry(dir.entries[i], source, r.value);
        if r.Ok? {
          GatherNext(dir.entries, i, source, before, sounds, r.value);
        }
      }
    }
  }

  predicate Describes(e: Entry, source: Source, s: Summary) {
    Lists(e, source, s.id) && s.source == source && s.name == Stem(e.name) && e.size == Some(s.bytes)
  }

  /** One iteration: skip what is not a sound, stop at the first entry that cannot be read. */
  method CollectEntry(entry: Entry, source: Source, sounds: seq<Summary>) returns (r: Result<seq<Summary>, SoundError>)
    requires Ascending(Ids(sounds))
    ensures r.Ok? <==> EntryReadable(entry)
    ensures r.Err? <==> entry.Unreadable? || (IsSound(entry.name) && entry.size.None?)
    ensures r.Ok? ==> Collected(entry, source, sounds, r.value)
    ensures r.Err? ==> r.error == Io
  {
    if entry.Unreadable? {
      return Err(Io);
    }
    if !IsSound(entry.name) {
      return Ok(sounds);
    }
    if entry.size.None? {
      return Err(Io);
    }
    var stem := Stem(entry.name);
    var summary := Summary(Prefix(source) + stem, stem, source, entry.size.value);
    InsertCollected(entry, source, sounds, summary);
    return Ok(Insert(sounds, summary));
  }

  /** `list_sounds`: exactly the sound files of both directories, ascending and without duplicates. */
  method ListSounds(lib: Library) returns (r: Result<seq<Summary>, SoundError>)
    ensures r.Ok? <==> Readable(lib.builtin) && Readable(lib.custom)
    ensures r.Ok? ==> Ascending(Ids(r.value))
    ensures r.Ok? ==>
              forall id :: id in Ids(r.value) <==> Listed(lib.builtin, Builtin, id) || Listed(lib.custom, Custom, id)
    ensures r.Ok? ==> forall s :: s in r.value ==> Told(lib.Dir(s.source), s.source, s)
    ensures r.Err? ==> r.error == Io
  {
    r := Collect(lib.builtin, Builtin, []);
    if r.Ok? {
      r := Collect(lib.custom, Custom, r.value);
    }
  }

  // Resolving

  /** `Path::join`: an absolute path replaces the directory. */
  function Join(base: string, path: string): string {
    if path != [] && path[0] == '/' then path
    else if base == [] || base[|base| - 1] == '/' then base + path
    else base + "/" + path
  }

  /** `dir.join(path).exists()`. */
  predicate Exists(lib: Library, dir: Directory, path: string) {
    if dir.Open? && '/' !in path then exists e :: e in dir.entries && e.File? && e.name == path && e.size.Some?
    else Join(dir.path, path) in lib.elsewhere
  }

  /** `resolve_in`: the path found, wav before flac. */
  function ResolveIn(lib: Library, dir: Directory, source: Source, name: string): Result<string, SoundError> {
    if Exists(lib, dir, name + "." + "wav") then Ok(Join(dir.path, name + "." + "wav"))
    else if Exists(lib, dir, name + "." + "flac") then Ok(Join(dir.path, name + "." + "flac"))
    else Err(UnknownSound(Prefix(source) + name))
  }

  /** `resolve_path`. */
  function ResolvePath(lib: Library, id: string): Result<string, SoundError> {
    if Prefix(Builtin) <= id then ResolveIn(lib, lib.builtin, Builtin, id[|Prefix(Builtin)|..])
    else if Prefix(Custom) <= id then ResolveIn(lib, lib.custom, Custom, id[|Prefix(Custom)|..])
    else Err(InvalidSoundId(id))
  }

  lemma ResolvesIn(lib: Library, source: Source, name: string)
    ensures ResolvePath(lib, Prefix(source) + name) == ResolveIn(lib, lib.Dir(source), source, name)
  {
    var id := Prefix(source) + name;
    PrefixesDisjoint(id);
    assert Prefix(source) <= id && id[|Prefix(source)|..] == name;
  }

  /** A namespaced id is looked up from its own directory only, as wav first, then flac, and otherwise reported by the id given. */
  lemma ResolvesTo(lib: Library, source: Source, name: string)
    ensures var dir, id := lib.Dir(source), (if source == Builtin then "builtin:" else "custom:") + name;
            ResolvePath(lib, id) ==
            if Exists(lib, dir, name + ".wav") then Ok(Join(dir.path, name + ".wav"))
            else if Exists(lib, dir, name + ".flac") then Ok(Join(dir.path, name + ".flac"))
            else Err(UnknownSound(id))
  {
    ResolvesIn(lib, source, name);
    assert name + "." + "wav" == name + ".wav" && name + "." + "flac" == name + ".flac";
  }

  /** Any other id is invalid. */
  lemma InvalidExactly(lib: Library, id: string)
    ensures ResolvePath(lib, id) == Err(InvalidSoundId(id)) <==> !("builtin:" <= id) && !("custom:" <= id)
  {
  }

  /** A path found is the file in the directory, unless it is absolute. */
  lemma JoinExactly(dir: string, name: string)
    requires dir != "" && dir[|dir| - 1] != '/' && name != ""
    ensures Join(dir, name) == if name[0] == '/' then name else dir + "/" + name
    ensures Join(dir + "/", name) == Join(dir, name)
  {
    if name[0] != '/' {
      assert (dir + "/")[|dir|] == '/';
    }
  }

  /** A name that a file of the directory can have. */
  predicate Plain(name: string) {
    name != "" && '/' !in name
  }

  /** In one directory, a name is listed exactly when it resolves, is plain, and the directory can be read. */
  lemma ListedIffResolvesIn(lib: Library, dir: Directory, source: Source, name: string)
    requires Readable(dir)
    ensures Listed(dir, source, Prefix(source) + name)
            <==> ResolveIn(lib, dir, source, name).Ok? && Plain(name) && dir.Open?
  {
    if Listed(dir, source, Prefix(source) + name) {
      ListedResolves(lib, dir, source, name);
    }
    if ResolveIn(lib, dir, source, name).Ok? && Plain(name) && dir.Open? {
      var ext := if Exists(lib, dir, name + "." + "wav") then "wav" else "flac";
      ExistingListed(lib, dir, source, name, ext);
    }
  }

  /** The entry a name is listed for. */
  lemma ListedEntry(dir: Directory, source: Source, name: string) returns (e: Entry)
    requires Listed(dir, source, Prefix(source) + name)
    ensures e in dir.entries && e.File? && IsSound(e.name) && Stem(e.name) == name
  {
    var id := Prefix(source) + name;
    var i :| 0 <= i < |dir.entries| && Lists(dir.entries[i], source, id);
    e := dir.entries[i];
    assert id[|Prefix(source)|..] == name;
    assert (Prefix(source) + Stem(e.name))[|Prefix(source)|..] == Stem(e.name);
  }

  lemma ListedPlain(dir: Directory, source: Source, name: string)
    requires Listed(dir, source, Prefix(source) + name)
    ensures Plain(name)
  {
    var e := ListedEntry(dir, source, name);
    SplitJoins(e.name);
  }

  lemma ListedResolves(lib: Library, dir: Directory, source: Source, name: string)
    requires Readable(dir) && Listed(dir, source, Prefix(source) + name)
    ensures ResolveIn(lib, dir, source, name).Ok? && Plain(name)
  {
    var e := ListedEntry(dir, source, name);
    assert EntryReadable(e);
    SplitJoins(e.name);
    assert Exists(lib, dir, name + "." + Extension(e.name).value);
  }

  lemma ExistingListed(lib: Library, dir: Directory, source: Source, name: string, ext: string)
    requires dir.Open? && Plain(name) && (ext == "wav" || ext == "flac") && Exists(lib, dir, name + "." + ext)
    ensures Listed(dir, source, Prefix(source) + name)
  {
    SplitOf(name, ext);
    var e :| e in dir.entries && e.File? && e.name == name + "." + ext && e.size.Some?;
    var i :| 0 <= i < |dir.entries| && dir.entries[i] == e;
    assert Lists(dir.entries[i], source, Prefix(source) + name);
  }

  lemma ListedPrefix(dir: Directory, source: Source, id: string)
    requires Listed(dir, source, id)
    ensures Prefix(source) <= id
  {
  }

  lemma PrefixesDisjoint(id: string)
    ensures !(Prefix(Builtin) <= id && Prefix(Custom) <= id)
  {
    assert Prefix(Builtin) <= id ==> id[0] == Prefix(Builtin)[0] == 'b';
    assert Prefix(Custom) <= id ==> id[0] == Prefix(Custom)[0] == 'c';
  }

  /** The name part of a namespaced id; the whole id when it has no known namespace. */
  function NameOf(id: string): string {
    if Prefix(Builtin) <= id then id[|Prefix(Builtin)|..]
    else if Prefix(Custom) <= id then id[|Prefix(Custom)|..]
    else id
  }

  function SourceOf(id: string): Source {
    if Prefix(Builtin) <= id then Builtin else Custom
  }

  /** For every id: it is listed exactly when it resolves, its name is plain, and its directory can be read. */
  lemma ListedIffResolves(lib: Library, id: string)
    requires Readable(lib.builtin) && Readable(lib.custom)
    ensures Listed(lib.builtin, Builtin, id) || Listed(lib.custom, Custom, id)
            <==> ResolvePath(lib, id).Ok? && Plain(NameOf(id)) && lib.Dir(SourceOf(id)).Open?
  {
    PrefixesDisjoint(id);
    if Listed(lib.builtin, Builtin, id) {
      ListedPrefix(lib.builtin, Builtin, id);
    }
    if Listed(lib.custom, Custom, id) {
      ListedPrefix(lib.custom, Custom, id);
    }
    if Prefix(Builtin) <= id {
      assert id == Prefix(Builtin) + NameOf(id);
      ListedIffResolvesIn(lib, lib.builtin, Builtin, NameOf(id));
    } else if Prefix(Custom) <= id {
      assert id == Prefix(Custom) + NameOf(id);
      ListedIffResolvesIn(lib, lib.custom, Custom, NameOf(id));
    }
  }

  /** A file called `.wav` resolves under the empty name but is never listed. */
  lemma EmptyNameHidden(lib: Library, dir: Directory, source: Source)
    requires Exists(lib, dir, ".wav")
    ensures ResolveIn(lib, dir, source, "").Ok? && !Listed(dir, source, Prefix(source))
  {
    assert "" + "." + "wav" == ".wav";
  }

  /** A name with a separator is never listed, and resolves exactly when its path exists, in a sub-directory or anywhere else. */
  lemma SeparatorHidden(lib: Library, source: Source, name: string)
    requires '/' in name
    ensures var path := lib.Dir(source).path;
            ResolvePath(lib, Prefix(source) + name).Ok? <==>
              Join(path, name + ".wav") in lib.elsewhere || Join(path, name + ".flac") in lib.elsewhere
    ensures name[0] == '/' && name + ".wav" in lib.elsewhere ==>
              ResolvePath(lib, Prefix(source) + name) == Ok(name + ".wav")
    ensures !Listed(lib.Dir(source), source, Prefix(source) + name)
  {
    ResolvesTo(lib, source, name);
    if Listed(lib.Dir(source), source, Prefix(source) + name) {
      ListedPlain(lib.Dir(source), source, name);
    }
  }

  /** Two such ids, in any library with the files for them: one below the directory, one outside it. */
  lemma SeparatorWitness(lib: Library, source: Source)
    requires Join(lib.Dir(source).path, "a/b.wav") in lib.elsewhere && "/x.wav" in lib.elsewhere
    ensures ResolvePath(lib, Prefix(source) + "a/b").Ok? && !Listed(lib.Dir(source), source, Prefix(source) + "a/b")
    ensures ResolvePath(lib, Prefix(source) + "/x") == Ok("/x.wav") && !Listed(lib.Dir(source), source, Prefix(source) + "/x")
  {
    assert "a/b"[1] == '/' && "/x"[0] == '/';
    assert "a/b" + ".wav" == "a/b.wav" && "/x" + ".wav" == "/x.wav";
    SeparatorHidden(lib, source, "a/b");
    SeparatorHidden(lib, source, "/x");
  }

  /** Built-in ids come before custom ones. */
  lemma BuiltinsFirst(a: string, b: string)
    requires Prefix(Builtin) <= a && Prefix(Custom) <= b
    ensures Less(a, b)
  {
  }

  /** The ids listed do not depend on the order `read_dir` yields the entries in. */
  lemma OrderIndependent(a: Library, b: Library, x: seq<string>, y: seq<string>)
    requires SameEntries(a.builtin, b.builtin) && SameEntries(a.custom, b.custom)
    requires Ascending(x) && forall id :: id in x <==> Listed(a.builtin, Builtin, id) || Listed(a.custom, Custom, id)
    requires Ascending(y) && forall id :: id in y <==> Listed(b.builtin, Builtin, id) || Listed(b.custom, Custom, id)
    ensures x == y
  {
    forall id ensures id in x <==> id in y {
      SameListed(a.builtin, b.builtin, Builtin, id);
      SameListed(a.custom, b.custom, Custom, id);
    }
    AscendingUnique(x, y);
  }

  ghost predicate SameEntries(a: Directory, b: Directory) {
    && a.Closed? == b.Closed?
    && (a.Open? ==> b.Open? && forall e :: e in a.entries <==> e in b.entries)
  }

  lemma SameListed(a: Directory, b: Directory, source: Source, id: string)
    requires SameEntries(a, b)
    ensures Listed(a, source, id) <==> Listed(b, source, id)
  {
    if Listed(a, source, id) {
      var i :| 0 <= i < |a.entries| && Lists(a.entries[i], source, id);
      assert a.entries[i] in b.entries;
      var j :| 0 <= j < |b.entries| && b.entries[j] == a.entries[i];
    }
    if Listed(b, source, id) {
      var i :| 0 <= i < |b.entries| && Lists(b.entries[i], source, id);
      assert b.entries[i] in a.entries;
      var j :| 0 <= j < |a.entries| && a.entries[j] == b.entries[i];
    }
  }
}
