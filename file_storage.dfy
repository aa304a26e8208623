/** The app's document directory (FileStorage.swift): files named by a path relative to the
    directory, read, written and deleted whole, and listed by name suffix.

    The enumeration of the directory (`contentsOfDirectory`) is an input: which names it
    returns, in which order, with which modification dates, and whether it fails are up
    to the file system. */
module Storage {
  import opened Common
  import opened MapFiles

  /** A point in time, in seconds relative to Foundation's reference date. */
  type Date = int

  /** `Date.distantPast`: 1 January of year 1, the earliest date Foundation offers. */
  const DistantPast: Date := -63114076800

  /** The extensions the app gives map files and their previews. */
  const MmdExtension: string := ".mmd"
  const PngExtension: string := ".png"

  /** One URL returned by the directory enumeration: its last path component and, when it
      could be read, its modification date. */
  datatype Entry = Entry(name: string, modified: Option<Date>)

  /** `.skipsHiddenFiles`: names starting with a dot are not listed. */
  predicate Hidden(name: string) {
    |name| > 0 && name[0] == '.'
  }

  /** The date the listing sorts by: an entry without a readable date counts as
      `Date.distantPast`. */
  function SortDate(e: Entry): (d: Date)
    ensures e.modified.None? ==> d == DistantPast
    ensures e.modified.Some? ==> d == e.modified.value
  {
    e.modified.GetOr(DistantPast)
  }

  /** The listed (non-hidden) entries whose name ends with `suffix`, in enumeration order. */
  function Matching(entries: seq<Entry>, suffix: string): (r: seq<Entry>)
    ensures forall e :: e in r <==> e in entries && !Hidden(e.name) && HasSuffix(e.name, suffix)
    ensures |r| <= |entries|
  {
    if entries == [] then []
    else if !Hidden(entries[0].name) && HasSuffix(entries[0].name, suffix) then [entries[0]] + Matching(entries[1..], suffix)
    else Matching(entries[1..], suffix)
  }

  /** Filtering keeps the enumeration order: the matches in a concatenation are the matches
      in its first part followed by those in its second part. */
  lemma {:induction false} MatchingAppend(a: seq<Entry>, b: seq<Entry>, suffix: string)
    ensures Matching(a + b, suffix) == Matching(a, suffix) + Matching(b, suffix)
  {
    if a == [] {
      assert a + b == b;
    } else {
      assert (a + b)[0] == a[0];
      assert (a + b)[1..] == a[1..] + b;
      MatchingAppend(a[1..], b, suffix);
    }
  }

  /** The names of entries, in order. */
  function Names(entries: seq<Entry>): (r: seq<string>)
    ensures |r| == |entries|
  {
    if entries == [] then [] else [entries[0].name] + Names(entries[1..])
  }

  /** The names are the entries' names, position by position. */
  lemma {:induction false} NamesAt(entries: seq<Entry>)
    ensures forall i :: 0 <= i < |entries| ==> Names(entries)[i] == entries[i].name
  {
    if entries != [] {
      NamesAt(entries[1..]);
    }
  }

  /** A name is among the names exactly when an entry has it. */
  lemma InNames(entries: seq<Entry>, x: string)
    ensures x in Names(entries) <==> exists e :: e in entries && e.name == x
  {
    NamesAt(entries);
    if x in Names(entries) {
      var i :| 0 <= i < |entries| && Names(entries)[i] == x;
      assert entries[i] in entries;
    }
  }

  /** `getAllFiles(with:)`: the names of the listed entries that end with `suffix`, in
      enumeration order; no names when the enumeration fails. */
  function AllFiles(listing: Option<seq<Entry>>, suffix: string): (r: seq<string>)
    ensures listing.None? ==> r == []
    ensures forall x :: x in r <==> listing.Some? && !Hidden(x) && HasSuffix(x, suffix) &&
                                    exists e :: e in listing.value && e.name == x
  {
    if listing.None? then []
    else
      var m := Matching(listing.value, suffix);
      assert forall x :: x in Names(m) <==> exists e :: e in m && e.name == x by {
        forall x ensures x in Names(m) <==> exists e :: e in m && e.name == x {
          InNames(m, x);
        }
      }
      Names(m)
  }

  /** Newest first: no entry is older than one after it. */
  predicate NewestFirst(entries: seq<Entry>) {
    forall i, j :: 0 <= i < j < |entries| ==> SortDate(entries[i]) >= SortDate(entries[j])
  }

  /** An entry no older than any entry of a newest-first sequence can lead it. */
  lemma Prepend(e: Entry, entries: seq<Entry>)
    requires NewestFirst(entries)
    requires forall x :: x in entries ==> SortDate(e) >= SortDate(x)
    ensures NewestFirst([e] + entries)
  {
    var r := [e] + entries;
    forall i, j | 0 <= i < j < |r| ensures SortDate(r[i]) >= SortDate(r[j]) {
      if i == 0 {
        assert r[j] == entries[j - 1];
      } else {
        assert r[i] == entries[i - 1] && r[j] == entries[j - 1];
      }
    }
  }

  /** Inserts `e` into a newest-first sequence before the first entry that is not newer. */
  function Insert(e: Entry, entries: seq<Entry>): (r: seq<Entry>)
    requires NewestFirst(entries)
    ensures NewestFirst(r)
    ensures multiset(r) == multiset(entries) + multiset{e}
  {
    if entries == [] then [e]
    else if SortDate(e) >= SortDate(entries[0]) then
      Prepend(e, entries);
      [e] + entries
    else
      var rest := Insert(e, entries[1..]);
      assert entries == [entries[0]] + entries[1..];
      forall x | x in rest ensures SortDate(entries[0]) >= SortDate(x) {
        assert x in multiset(rest);
        if x != e {
          assert x in multiset(entries[1..]);
        }
      }
      Prepend(entries[0], rest);
      [entries[0]] + rest
  }

  lemma NamesCons(x: Entry, entries: seq<Entry>)
    ensures Names([x] + entries) == [x.name] + Names(entries)
  {
    assert ([x] + entries)[1..] == entries;
  }

  /** Inserting an entry adds its name to the names. */
  lemma {:induction false} NamesInsert(e: Entry, entries: seq<Entry>)
    requires NewestFirst(entries)
    ensures multiset(Names(Insert(e, entries))) == multiset(Names(entries)) + multiset{e.name}
    decreases |entries|, 1
  {
    if entries == [] {
      assert Insert(e, entries) == [e];
    } else if SortDate(e) < SortDate(entries[0]) {
      NamesInsertLater(e, entries);
    } else {
      assert Insert(e, entries) == [e] + entries;
      NamesCons(e, entries);
    }
  }

  /** `NamesInsert` when `e` goes after the first entry. */
  lemma {:induction false} NamesInsertLater(e: Entry, entries: seq<Entry>)
    requires NewestFirst(entries) && entries != [] && SortDate(e) < SortDate(entries[0])
    ensures multiset(Names(Insert(e, entries))) == multiset(Names(entries)) + multiset{e.name}
    decreases |entries|, 0
  {
    var head, tail := entries[0], entries[1..];
    var rest := Insert(e, tail);
    assert Insert(e, entries) == [head] + rest;
    assert Names(entries) == [head.name] + Names(tail) by {
      assert entries == [head] + tail;
      NamesCons(head, tail);
    }
    calc {
      multiset(Names([head] + rest));
      { NamesCons(head, rest); }
      multiset([head.name] + Names(rest));
      multiset{head.name} + multiset(Names(rest));
      { NamesInsert(e, tail); }
      multiset{head.name} + multiset(Names(tail)) + multiset{e.name};
      multiset([head.name] + Names(tail)) + multiset{e.name};
    }
  }

  /** Sorting by date permutes the names. */
  lemma {:induction false} NamesByDate(entries: seq<Entry>)
    ensures multiset(Names(ByDate(entries))) == multiset(Names(entries))
  {
    if entries != [] {
      assert Names(entries) == [entries[0].name] + Names(entries[1..]);
      NamesByDate(entries[1..]);
      NamesInsert(entries[0], ByDate(entries[1..]));
    }
  }

  /** The entries ordered newest first (`sorted(by: { $0.1 > $1.1 })`). */
  function ByDate(entries: seq<Entry>): (r: seq<Entry>)
    ensures NewestFirst(r)
    ensures multiset(r) == multiset(entries)
  {
    if entries == [] then []
    else
      assert entries == [entries[0]] + entries[1..];
      Insert(entries[0], ByDate(entries[1..]))
  }

  /** `getRecentFiles(with:)`: all the names `getAllFiles(with:)` returns, none dropped and
      none added, reordered newest first. */
  function RecentFiles(listing: Option<seq<Entry>>, suffix: string): (r: seq<string>)
    ensures listing.None? ==> r == []
    ensures multiset(r) == multiset(AllFiles(listing, suffix))
    ensures listing.Some? ==> exists sorted :: NewestFirst(sorted) && r == Names(sorted) &&
                              multiset(sorted) == multiset(Matching(listing.value, suffix))
  {
    if listing.None? then []
    else
      var sorted := ByDate(Matching(listing.value, suffix));
      NamesByDate(Matching(listing.value, suffix));
      Names(sorted)
  }

  /** In a newest-first listing, an entry without a date comes after every entry dated
      later than `Date.distantPast`. */
  lemma UndatedLast(entries: seq<Entry>, i: nat, j: nat)
    requires NewestFirst(entries) && i < |entries| && j < |entries|
    requires entries[i].modified.None? && entries[j].modified.Some? && entries[j].modified.value > DistantPast
    ensures j < i
  {
  }

  /** A name the directory can hold as one file: not empty, not `.` or `..`, without a
      path separator. Writing to any other path fails. */
  predicate Flat(path: string) {
    path != "" && path != "." && path != ".." && '/' !in path
  }

  class FileStorage {
    /** The files of the document directory and their modification dates. */
    var files: map<string, Data>
    var modified: map<string, Date>

    ghost predicate Valid()
      reads this
    {
      files.Keys == modified.Keys && forall p :: p in files ==> Flat(p)
    }

    /** The document directory of a fresh installation: empty. */
    constructor ()
      ensures Valid() && files == map[] && modified == map[]
    {
      files := map[];
      modified := map[];
    }

    /** `getFile(atPath:)`: the file's contents; fails when there is no such file. */
    function GetFile(path: string): (r: Option<Data>)
      reads this
      ensures r.Some? <==> path in files
      ensures r.Some? ==> r.value == files[path]
    {
      if path in files then Some(files[path]) else None
    }

    /** `writeFile(_:atPath:)`: creates or replaces the file and stamps it with `now`; other
        files are untouched. Fails, changing nothing, when the path is not a file name of
        the directory. */
    method WriteFile(data: Data, path: string, now: Date) returns (ok: bool)
      requires Valid()
      modifies this
      ensures Valid()
      ensures ok <==> Flat(path)
      ensures ok ==> files == old(files)[path := data] && modified == old(modified)[path := now]
      ensures ok ==> GetFile(path) == Some(data)
      ensures !ok ==> files == old(files) && modified == old(modified)
    {
      ok := Flat(path);
      if ok {
        files := files[path := data];
        modified := modified[path := now];
      }
    }

    /** `deleteFile(atPath:)`: removes the file and nothing else; fails, changing nothing,
        when there is no such file. */
    method DeleteFile(path: string) returns (ok: bool)
      requires Valid()
      modifies this
      ensures Valid()
      ensures ok <==> path in old(files)
      ensures files == old(files) - {path} && modified == old(modified) - {path}
      ensures GetFile(path) == None
    {
      ok := path in files;
      files := files - {path};
      modified := modified - {path};
    }

    /** `copyFile(at:)`: imports the bytes read from outside the directory (`None` when they
        could not be read). When they decode as a map they are stored unchanged under the
        root node's name with the map extension and the map is returned; otherwise nothing
        is written. */
    method CopyFile(imported: Option<Data>, now: Date) returns (r: Option<MapFile>)
      requires Valid()
      modifies this
      ensures Valid()
      ensures r.Some? ==> imported.Some? && Decode(imported.value) == r
      ensures r.Some? ==> files == old(files)[r.value.rootNode.name + MmdExtension := imported.value]
      ensures r.Some? ==> modified == old(modified)[r.value.rootNode.name + MmdExtension := now]
      ensures r.None? ==> files == old(files) && modified == old(modified)
      ensures (imported.Some? && Decode(imported.value).Some? &&
               Flat(Decode(imported.value).value.rootNode.name + MmdExtension)) ==> r.Some?
    {
      if imported.None? {
        return None;
      }
      var mapData := Decode(imported.value);
      if mapData.None? {
        return None;
      }
      var ok := WriteFile(imported.value, mapData.value.rootNode.name + MmdExtension, now);
      r := if ok then mapData else None;
    }
  }
}
