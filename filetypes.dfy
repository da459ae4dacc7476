/** The extension histogram of `lineman.c`: the fixed array `file_types`
    of `MAX_FILE_TYPES` slots, of which the first `file_type_count` are used. */
module FileTypes {
  import opened Optional
  import opened Rules

  /** `MAX_FILE_TYPES`. */
  const MaxFileTypes: nat := 64

  /** `FileTypeCount`: a lower-cased extension and how many files carried it. */
  datatype FileTypeCount = FileTypeCount(ext: string, count: int)

  /** Distinct keys, positive counts, at most `MaxFileTypes` entries. */
  ghost predicate WellFormedHistogram(h: seq<FileTypeCount>) {
    |h| <= MaxFileTypes &&
    (forall i, j :: 0 <= i < j < |h| ==> h[i].ext != h[j].ext) &&
    (forall i :: 0 <= i < |h| ==> h[i].count >= 1)
  }

  /** The position of the entry for `ext`, if there is one. */
  function IndexOfExt(h: seq<FileTypeCount>, ext: string): (r: Option<nat>)
    ensures r.None? <==> forall i :: 0 <= i < |h| ==> h[i].ext != ext
    ensures r.Some? ==> r.value < |h| && h[r.value].ext == ext
    ensures r.Some? ==> forall i :: 0 <= i < r.value ==> h[i].ext != ext
    decreases |h|
  {
    if |h| == 0 then None
    else if h[0].ext == ext then Some(0)
    else
      var rest := IndexOfExt(h[1..], ext);
      if rest.None? then None else Some(rest.value + 1)
  }

  /** How many files with extension `ext` the histogram records (0 when absent). */
  function CountOf(h: seq<FileTypeCount>, ext: string): nat {
    match IndexOfExt(h, ext)
    case None => 0
    case Some(i) => if h[i].count < 0 then 0 else h[i].count
  }

  /** The histogram after one `count_file_type` with the given key. */
  function Record(h: seq<FileTypeCount>, key: Option<string>): seq<FileTypeCount> {
    match key
    case None => h
    case Some(k) =>
      match IndexOfExt(h, k)
      case Some(i) => h[i := h[i].(count := h[i].count + 1)]
      case None => if |h| < MaxFileTypes then h + [FileTypeCount(k, 1)] else h
  }

  /** Recording keeps the keys distinct, the counts positive and the size within bounds. */
  lemma RecordWellFormed(h: seq<FileTypeCount>, key: Option<string>)
    requires WellFormedHistogram(h)
    ensures WellFormedHistogram(Record(h, key))
  {
  }

  /** Two histograms with the same keys in the same places, the longer one's
      extra keys differing from `ext`, find `ext` at the same place. */
  lemma IndexOfExtSameKeys(h: seq<FileTypeCount>, g: seq<FileTypeCount>, ext: string)
    requires |h| <= |g|
    requires forall i :: 0 <= i < |h| ==> g[i].ext == h[i].ext
    requires forall i :: |h| <= i < |g| ==> g[i].ext != ext
    ensures IndexOfExt(g, ext) == IndexOfExt(h, ext)
  {
    var a, b := IndexOfExt(h, ext), IndexOfExt(g, ext);
    if a.Some? {
      assert g[a.value].ext == ext;
    }
    if b.Some? {
      assert h[b.value].ext == ext;
    }
  }

  /** Recording a key adds one to its count, unless it is new and the table is full. */
  lemma RecordCounts(h: seq<FileTypeCount>, key: string)
    requires WellFormedHistogram(h)
    ensures CountOf(Record(h, Some(key)), key) ==
            CountOf(h, key) + (if IndexOfExt(h, key).Some? || |h| < MaxFileTypes then 1 else 0)
  {
    var g := Record(h, Some(key));
    var i := IndexOfExt(h, key);
    if i.Some? {
      IndexOfExtSameKeys(h, g, key);
    } else if |h| < MaxFileTypes {
      assert g[|h|].ext == key;
      assert IndexOfExt(g, key) == Some(|h|);
    }
  }

  /** Recording one key leaves every other extension's count as it was. */
  lemma RecordLeavesOthers(h: seq<FileTypeCount>, key: Option<string>, other: string)
    requires WellFormedHistogram(h)
    requires key != Some(other)
    ensures CountOf(Record(h, key), other) == CountOf(h, other)
  {
    var g := Record(h, key);
    IndexOfExtSameKeys(h, g, other);
  }

  /** Recording never moves or drops an entry: older keys keep their place in display order. */
  lemma RecordKeepsOrder(h: seq<FileTypeCount>, key: Option<string>)
    ensures |Record(h, key)| >= |h|
    ensures forall i :: 0 <= i < |h| ==> Record(h, key)[i].ext == h[i].ext
  {
  }

  /** `file_types` / `file_type_count` as one object. */
  class FileTypeTable {
    var entries: array<FileTypeCount>
    var used: nat

    ghost predicate Valid()
      reads this, entries
    {
      entries.Length == MaxFileTypes && used <= entries.Length && WellFormedHistogram(entries[..used])
    }

    /** The used part of the array, in insertion order. */
    ghost function Histogram(): seq<FileTypeCount>
      reads this, entries
      requires Valid()
    {
      entries[..used]
    }

    /** The zero-initialised globals. */
    constructor ()
      ensures Valid() && fresh(entries) && Histogram() == []
    {
      entries := new FileTypeCount[MaxFileTypes](_ => FileTypeCount("", 0));
      used := 0;
    }

    /** The search loop of `count_file_type`: the slot holding `ext`, if any. */
    method Find(ext: string) returns (index: Option<nat>)
      requires Valid()
      ensures index == IndexOfExt(Histogram(), ext)
    {
      var i := 0;
      while i < used
        invariant 0 <= i <= used
        invariant forall k :: 0 <= k < i ==> entries[k].ext != ext
      {
        if entries[i].ext == ext {
          return Some(i);
        }
        i := i + 1;
      }
      return None;
    }

    /** `file_types[i].count++`. */
    method Increment(i: nat)
      requires Valid() && i < used
      modifies entries
      ensures Valid()
      ensures Histogram() == old(Histogram())[i := old(Histogram())[i].(count := old(Histogram())[i].count + 1)]
    {
      ghost var h := Histogram();
      entries[i] := entries[i].(count := entries[i].count + 1);
      assert entries[..used] == h[i := h[i].(count := h[i].count + 1)];
    }

    /** The new slot: `strcpy` of the key, count 1, `file_type_count++`. */
    method Append(ext: string)
      requires Valid() && used < MaxFileTypes && IndexOfExt(Histogram(), ext).None?
      modifies this, entries
      ensures Valid() && entries == old(entries)
      ensures Histogram() == old(Histogram()) + [FileTypeCount(ext, 1)]
    {
      ghost var h := Histogram();
      entries[used] := FileTypeCount(ext, 1);
      used := used + 1;
      assert entries[..used] == h + [FileTypeCount(ext, 1)];
    }

    /** `count_file_type`: bump the entry for the path's extension key, or
        append it with count 1 while there is room; a path without a key
        changes nothing. */
    method CountFileType(path: string)
      requires Valid()
      modifies this, entries
      ensures Valid() && entries == old(entries)
      ensures Histogram() == Record(old(Histogram()), ExtensionKey(path))
    {
      var key := ExtensionOf(path);
      if key.None? {
        return;
      }
      ghost var h := Histogram();
      var index := Find(key.value);
      if index.Some? {
        Increment(index.value);
        assert Histogram() == Record(h, key);
      } else if used < MaxFileTypes {
        Append(key.value);
        assert Histogram() == Record(h, key);
      }
    }
  }
}
