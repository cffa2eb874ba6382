/**
 * The collection loaders `getMemories`, `getStudents` and `getDevelopers` of
 * js/app.js, which differ only in the folder they read, as one specification:
 * list the folder, keep the "dir" entries, fetch each one's data.json, skip
 * those that are missing, empty or do not parse to an object, and point
 * `imagePath` at the raw asset host. Records come out in listing order.
 */
module Collections {
  import opened Wrappers
  import opened Platform
  import opened Api

  /** The three collections the viewer shows. */
  datatype Collection = Memories | Students | Developers

  /** The top-level folder of each collection. */
  function Folder(c: Collection): (folder: string)
    ensures folder != "" && PathSeparator !in folder
  {
    match c
    case Memories => "추억"
    case Students => "학생목록"
    case Developers => "개발자"
  }

  const PathSeparator: char := '/'

  /** The three collections live in three different folders. */
  lemma FoldersDistinct(a: Collection, b: Collection)
    requires a != b
    ensures Folder(a) != Folder(b)
  {
  }

  /** `${folder}/${entry.name}/data.json` */
  function DataPath(folder: string, name: string): string
  {
    folder + "/" + name + "/data.json"
  }

  /** What a template literal renders for a member that may be absent: `undefined` when it is. */
  function Interpolate(v: Option<Value>): string
  {
    match v
    case None => "undefined"
    case Some(JString(s)) => s
    case Some(JOther(shown)) => shown
  }

  function Member(f: Fields, key: string): Option<Value>
  {
    if key in f then Some(f[key]) else None
  }

  /**
   * `{...data, imagePath: raw URL of data.imagePath}`: every member is copied
   * and `imagePath` is always written, even when the document had none.
   */
  function Rewrite(c: Config, f: Fields): (record: Fields)
    ensures record.Keys == f.Keys + {"imagePath"}
    ensures forall k :: k in f && k != "imagePath" ==> record[k] == f[k]
    ensures record["imagePath"] == JString(RawUrl(c, Interpolate(Member(f, "imagePath"))))
  {
    f["imagePath" := JString(RawUrl(c, Interpolate(Member(f, "imagePath"))))]
  }

  /**
   * The body of the loop for one listing entry: the rewritten record, or
   * nothing when the entry is not a folder, its data.json is missing or empty,
   * `JSON.parse` throws, or the document is `null` (reading `imagePath` of
   * `null` throws, and the inner catch skips it).
   */
  function LoadEntry(h: Host, c: Config, folder: string, e: Entry): (loaded: seq<Fields>)
    ensures |loaded| <= 1
    ensures var content := FileContent(h, c, DataPath(folder, e.name));
      loaded != [] <==>
        e.kind == "dir" && content.Some? && content.value != ""
        && h.parse(content.value).Some? && h.parse(content.value).value.JObject?
    ensures loaded != [] ==>
      loaded[0] == Rewrite(c, h.parse(FileContent(h, c, DataPath(folder, e.name)).value).value.fields)
    ensures loaded != [] ==> "imagePath" in loaded[0] && loaded[0]["imagePath"].JString?
  {
    if e.kind != "dir" then []
    else
      match FileContent(h, c, DataPath(folder, e.name))
      case None => []
      case Some(text) =>
        if text == "" then []
        else
          match h.parse(text)
          case Some(JObject(f)) => [Rewrite(c, f)]
          case Some(JNull) => []
          case None => []
  }

  /** The records the loop has pushed after visiting `entries`, in visiting order. */
  function Gather(h: Host, c: Config, folder: string, entries: seq<Entry>): seq<Fields>
  {
    if entries == [] then []
    else Gather(h, c, folder, entries[..|entries| - 1]) + LoadEntry(h, c, folder, entries[|entries| - 1])
  }

  /** A loader's result: the records gathered over the folder's listing, which is `[]` when listing fails. */
  function LoadCollection(h: Host, c: Config, folder: string): (records: seq<Fields>)
    ensures !h.listing(ContentsUrl(c, folder), AuthHeader(c)).Ok? ==> records == []
  {
    Gather(h, c, folder, FolderContents(h, c, folder))
  }

  /** The folder entries of a listing. */
  function Dirs(entries: seq<Entry>): (dirs: seq<Entry>)
  {
    if entries == [] then []
    else Dirs(entries[..|entries| - 1]) + (if entries[|entries| - 1].kind == "dir" then [entries[|entries| - 1]] else [])
  }

  /** The loader yields at most one record per folder entry of the listing. */
  lemma {:induction false} GatherBound(h: Host, c: Config, folder: string, entries: seq<Entry>)
    ensures |Gather(h, c, folder, entries)| <= |Dirs(entries)| <= |entries|
  {
    if entries != [] {
      GatherBound(h, c, folder, entries[..|entries| - 1]);
    }
  }

  /** Entries that are not folders are ignored: the loader gives the same records for the folder entries alone. */
  lemma {:induction false} GatherIgnoresNonDirs(h: Host, c: Config, folder: string, entries: seq<Entry>)
    ensures Gather(h, c, folder, entries) == Gather(h, c, folder, Dirs(entries))
  {
    if entries != [] {
      var init, last := entries[..|entries| - 1], entries[|entries| - 1];
      GatherIgnoresNonDirs(h, c, folder, init);
      assert Gather(h, c, folder, entries) == Gather(h, c, folder, init) + LoadEntry(h, c, folder, last);
      if last.kind == "dir" {
        var d := Dirs(init) + [last];
        assert Dirs(entries) == d;
        assert d[..|d| - 1] == Dirs(init);
        assert Gather(h, c, folder, d) == Gather(h, c, folder, Dirs(init)) + LoadEntry(h, c, folder, last);
      } else {
        assert Dirs(entries) == Dirs(init);
      }
    }
  }

  /** Loading a listing in two parts gives the records of the first part followed by those of the second. */
  lemma {:induction false} GatherConcat(h: Host, c: Config, folder: string, a: seq<Entry>, b: seq<Entry>)
    ensures Gather(h, c, folder, a + b) == Gather(h, c, folder, a) + Gather(h, c, folder, b)
  {
    if b == [] {
      assert a + b == a;
    } else {
      var b' := b[..|b| - 1];
      assert (a + b)[..|a + b| - 1] == a + b';
      GatherConcat(h, c, folder, a, b');
    }
  }

  /**
   * One entry affects only its own place in the result: the records are
   * those before it, then its own (possibly none), then those after it.
   */
  lemma GatherAround(h: Host, c: Config, folder: string, entries: seq<Entry>, j: nat)
    requires j < |entries|
    ensures Gather(h, c, folder, entries) ==
      Gather(h, c, folder, entries[..j]) + LoadEntry(h, c, folder, entries[j]) + Gather(h, c, folder, entries[j + 1..])
  {
    assert entries == entries[..j] + [entries[j]] + entries[j + 1..];
    GatherConcat(h, c, folder, entries[..j] + [entries[j]], entries[j + 1..]);
    GatherConcat(h, c, folder, entries[..j], [entries[j]]);
    assert [entries[j]][..0] == [];
  }

  /** The positions of the listing that yield a record, in increasing order. */
  function Sources(h: Host, c: Config, folder: string, entries: seq<Entry>): seq<nat>
  {
    if entries == [] then []
    else
      Sources(h, c, folder, entries[..|entries| - 1])
        + (if LoadEntry(h, c, folder, entries[|entries| - 1]) != [] then [|entries| - 1] else [])
  }

  /**
   * `records` is the order-preserving image of `entries` through `idx`: the
   * k-th record is what the idx[k]-th entry loads, the positions increase,
   * and every entry that loads a record has its position in `idx`.
   */
  ghost predicate OrderedImage(h: Host, c: Config, folder: string, entries: seq<Entry>, records: seq<Fields>, idx: seq<nat>)
  {
    && |idx| == |records|
    && (forall k :: 0 <= k < |idx| ==> idx[k] < |entries| && LoadEntry(h, c, folder, entries[idx[k]]) == [records[k]])
    && (forall a, b :: 0 <= a < b < |idx| ==> idx[a] < idx[b])
    && (forall j :: 0 <= j < |entries| && LoadEntry(h, c, folder, entries[j]) != [] ==> j in idx)
  }

  /** The loader's records are exactly the loadable entries' records, in listing order. */
  lemma {:induction false} GatherIsOrderedImage(h: Host, c: Config, folder: string, entries: seq<Entry>)
    ensures OrderedImage(h, c, folder, entries, Gather(h, c, folder, entries), Sources(h, c, folder, entries))
    ensures forall k :: 0 <= k < |Sources(h, c, folder, entries)| ==> Sources(h, c, folder, entries)[k] < |entries|
  {
    if entries != [] {
      var n := |entries| - 1;
      var init := entries[..n];
      GatherIsOrderedImage(h, c, folder, init);
      var g, s := Gather(h, c, folder, init), Sources(h, c, folder, init);
      var loaded := LoadEntry(h, c, folder, entries[n]);
      forall k | 0 <= k < |s| ensures entries[s[k]] == init[s[k]] { }
      forall j | 0 <= j < n ensures entries[j] == init[j] { }
      if loaded != [] {
        var s', g' := s + [n], g + loaded;
        assert g' == g + [loaded[0]];
        forall k | 0 <= k < |s'|
          ensures s'[k] < |entries| && LoadEntry(h, c, folder, entries[s'[k]]) == [g'[k]]
        {
          if k < |s| { assert s'[k] == s[k] && g'[k] == g[k]; }
        }
      } else {
        assert Gather(h, c, folder, entries) == g;
      }
    }
  }

  /**
   * The k-th record the loader yields is the document of the entry it comes
   * from, rewritten: that entry's data.json was read and parsed to an object,
   * and the record's `imagePath` is the raw asset URL of the document's own.
   */
  lemma GatherImagePaths(h: Host, c: Config, folder: string, entries: seq<Entry>, k: nat)
    requires k < |Gather(h, c, folder, entries)|
    ensures |Sources(h, c, folder, entries)| == |Gather(h, c, folder, entries)|
    ensures Sources(h, c, folder, entries)[k] < |entries|
    ensures var e := entries[Sources(h, c, folder, entries)[k]];
      var content := FileContent(h, c, DataPath(folder, e.name));
      && e.kind == "dir"
      && content.Some? && h.parse(content.value).Some? && h.parse(content.value).value.JObject?
      && Gather(h, c, folder, entries)[k] == Rewrite(c, h.parse(content.value).value.fields)
      && Gather(h, c, folder, entries)[k]["imagePath"]
         == JString(RawUrl(c, Interpolate(Member(h.parse(content.value).value.fields, "imagePath"))))
  {
    GatherIsOrderedImage(h, c, folder, entries);
  }

  /**
   * A listing of three folders whose middle document fails to parse loads
   * the other two records, in listing order.
   */
  lemma MiddleFailureSkipped(h: Host, c: Config, folder: string, e1: Entry, e2: Entry, e3: Entry)
    requires LoadEntry(h, c, folder, e2) == []
    ensures Gather(h, c, folder, [e1, e2, e3]) == LoadEntry(h, c, folder, e1) + LoadEntry(h, c, folder, e3)
  {
    var es := [e1, e2, e3];
    assert es[..2] == [e1, e2] && [e1, e2][..1] == [e1] && [e1][..0] == [];
    assert Gather(h, c, folder, [e1]) == LoadEntry(h, c, folder, e1);
    assert Gather(h, c, folder, [e1, e2]) == LoadEntry(h, c, folder, e1);
  }
}
