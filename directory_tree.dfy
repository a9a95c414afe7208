/** Recursive collection of PowerShell files (`findPs1Files` and its inner
    `traverse`). A directory is given by its listing, a sequence of entries in
    the order the listing returns them. */
module DirectoryTree {
  import opened FileFilter

  /** One entry of a directory listing. `Special` is anything that is neither
      a directory nor a regular file (a symbolic link, a socket, ...): the
      traversal neither descends into it nor collects it. */
  datatype Entry =
    | File(name: string)
    | Directory(name: string, entries: seq<Entry>)
    | Special(name: string)

  /** What one entry of the listing of `dir` contributes to the result. */
  function EntryPs1Files(dir: string, e: Entry): seq<string>
    decreases e
  {
    match e
    case Directory(name, sub) => Ps1Files(Join(dir, name), sub)
    case File(name) => if IsPs1(name) then [Join(dir, name)] else []
    case Special(_) => []
  }

  /** The paths `findPs1Files` collects under `dir`: depth first, in listing
      order. */
  function Ps1Files(dir: string, entries: seq<Entry>): seq<string>
    decreases entries
  {
    if entries == [] then [] else EntryPs1Files(dir, entries[0]) + Ps1Files(dir, entries[1..])
  }

  /** Every regular file under `dir`, depth first, in listing order,
      whatever its extension. */
  function RegularFiles(dir: string, entries: seq<Entry>): seq<string>
    decreases entries
  {
    if entries == [] then []
    else
      var here := match entries[0]
        case Directory(name, sub) => RegularFiles(Join(dir, name), sub)
        case File(name) => [Join(dir, name)]
        case Special(_) => [];
      here + RegularFiles(dir, entries[1..])
  }

  /** The paths of `paths` that pass `keep`, in order. */
  function Filter(paths: seq<string>, keep: string -> bool): (r: seq<string>)
    ensures |r| <= |paths|
    ensures forall p :: p in r <==> p in paths && keep(p)
  {
    if paths == [] then []
    else (if keep(paths[0]) then [paths[0]] else []) + Filter(paths[1..], keep)
  }

  lemma {:induction false} FilterAppend(a: seq<string>, b: seq<string>, keep: string -> bool)
    ensures Filter(a + b, keep) == Filter(a, keep) + Filter(b, keep)
  {
    if a == [] {
      assert a + b == b;
    } else {
      assert (a + b)[0] == a[0];
      assert (a + b)[1..] == a[1..] + b;
      FilterAppend(a[1..], b, keep);
    }
  }

  lemma {:induction false} Ps1FilesAppend(dir: string, a: seq<Entry>, b: seq<Entry>)
    ensures Ps1Files(dir, a + b) == Ps1Files(dir, a) + Ps1Files(dir, b)
  {
    if a == [] {
      assert a + b == b;
    } else {
      assert (a + b)[0] == a[0];
      assert (a + b)[1..] == a[1..] + b;
      Ps1FilesAppend(dir, a[1..], b);
    }
  }

  /** Handling one more entry of a listing appends what that entry contributes. */
  lemma Ps1FilesStep(dir: string, entries: seq<Entry>, i: nat)
    requires i < |entries|
    ensures Ps1Files(dir, entries[..i + 1]) == Ps1Files(dir, entries[..i]) + EntryPs1Files(dir, entries[i])
  {
    assert entries[..i + 1] == entries[..i] + [entries[i]];
    Ps1FilesAppend(dir, entries[..i], [entries[i]]);
    assert [entries[i]][1..] == [];
  }

  /** `findPs1Files` returns exactly the regular files whose extension,
      lower-cased, is `.ps1`, descending into every subdirectory and keeping
      depth-first listing order. */
  lemma {:induction false} Ps1FilesAreFilteredRegularFiles(dir: string, entries: seq<Entry>)
    ensures Ps1Files(dir, entries) == Filter(RegularFiles(dir, entries), IsPs1)
    decreases entries
  {
    if entries != [] {
      var e := entries[0];
      var here := match e
        case Directory(name, sub) => RegularFiles(Join(dir, name), sub)
        case File(name) => [Join(dir, name)]
        case Special(_) => [];
      assert RegularFiles(dir, entries) == here + RegularFiles(dir, entries[1..]);
      FilterAppend(here, RegularFiles(dir, entries[1..]), IsPs1);
      Ps1FilesAreFilteredRegularFiles(dir, entries[1..]);
      match e
      case Directory(name, sub) =>
        Ps1FilesAreFilteredRegularFiles(Join(dir, name), sub);
      case File(name) =>
        BaseNameOfJoin(dir, name);
        assert [Join(dir, name)][1..] == [];
      case Special(_) =>
    }
  }

  /** Every path collected passes `checkFile`'s extension test, and no more
      paths are collected than there are regular files. */
  lemma CollectedPathsPassFilter(dir: string, entries: seq<Entry>)
    ensures forall p :: p in Ps1Files(dir, entries) <==> p in RegularFiles(dir, entries) && IsPs1(p)
    ensures |Ps1Files(dir, entries)| <= |RegularFiles(dir, entries)|
  {
    Ps1FilesAreFilteredRegularFiles(dir, entries);
  }

  /** The array that `traverse` pushes onto, shared by all its recursive
      activations. */
  class Ps1Collector {
    var found: seq<string>

    constructor ()
      ensures found == []
    {
      found := [];
    }

    /** `traverse`: visit the listing of `currentPath` in order, descending
        into directories and appending each `.ps1` regular file. */
    method Traverse(currentPath: string, entries: seq<Entry>)
      modifies this
      ensures found == old(found) + Ps1Files(currentPath, entries)
      decreases entries
    {
      for i := 0 to |entries|
        invariant found == old(found) + Ps1Files(currentPath, entries[..i])
      {
        var entry := entries[i];
        var fullPath := Join(currentPath, entry.name);
        Ps1FilesStep(currentPath, entries, i);
        if entry.Directory? {
          Traverse(fullPath, entry.entries);
        } else if entry.File? && IsPs1(entry.name) {
          found := found + [fullPath];
        }
      }
      assert entries[..|entries|] == entries;
    }
  }

  /** `findPs1Files`: collect from a fresh, empty array. */
  method FindPs1Files(dirPath: string, listing: seq<Entry>) returns (ps1Files: seq<string>)
    ensures ps1Files == Ps1Files(dirPath, listing)
  {
    var collector := new Ps1Collector();
    collector.Traverse(dirPath, listing);
    ps1Files := collector.found;
  }
}
