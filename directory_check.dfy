/** Tallying a directory (`checkDirectory`): every collected file is checked
    and counted under its tag in a six-entry counter table. */
module DirectoryCheck {
  import opened Encodings
  import opened Bom
  import opened FileFilter
  import opened DirectoryTree

  /** The counter table, keyed by tag. The script keys it by the tag's
      string name; `Encodings.TagsAreKeys` shows the six names are distinct,
      so keying by tag counts the same. */
  type Counters = map<Encoding, nat>

  /** The table as `checkDirectory` creates it: all six tags at zero. */
  const ZeroCounters: Counters := map e | e in AllEncodings :: 0

  /** Sum of the six counters. */
  function Total(stats: Counters): nat
    requires stats.Keys == AllEncodings
  {
    stats[Utf8Bom] + stats[Utf8NoBom] + stats[Utf16Le] + stats[Utf16Be] + stats[Unknown] + stats[Error]
  }

  /** The classification of each of `paths`, in order. */
  function Classify(paths: seq<string>, disk: string -> Probe): (r: seq<Encoding>)
    ensures |r| == |paths|
  {
    seq(|paths|, i requires 0 <= i < |paths| => CheckEncoding(disk(paths[i])))
  }

  lemma ClassifyStep(paths: seq<string>, i: nat, disk: string -> Probe)
    requires i < |paths|
    ensures Classify(paths[..i + 1], disk) == Classify(paths[..i], disk) + [CheckEncoding(disk(paths[i]))]
  {
  }

  /** Counting each outcome under its tag. */
  function CountersOf(outcomes: seq<Encoding>): Counters
  {
    map e | e in AllEncodings :: multiset(outcomes)[e]
  }

  /** The table `checkDirectory` returns for the listing of `dir`. */
  function DirectoryStats(dir: string, listing: seq<Entry>, disk: string -> Probe): Counters
  {
    CountersOf(Classify(Ps1Files(dir, listing), disk))
  }

  /** Each outcome is counted exactly once: the counters sum to the number of
      outcomes. */
  lemma {:induction false} CountersOfTotal(outcomes: seq<Encoding>)
    ensures CountersOf(outcomes).Keys == AllEncodings
    ensures Total(CountersOf(outcomes)) == |outcomes|
    decreases |outcomes|
  {
    if outcomes != [] {
      var n := |outcomes| - 1;
      var init := outcomes[..n];
      assert outcomes == init + [outcomes[n]];
      CountersOfTotal(init);
      assert forall e :: e in AllEncodings ==>
        CountersOf(outcomes)[e] == CountersOf(init)[e] + (if outcomes[n] == e then 1 else 0);
    }
  }

  /** The counters of a directory sum to the number of `.ps1` files found in
      it; when none is found, all six are zero. */
  lemma DirectoryStatsTotal(dir: string, listing: seq<Entry>, disk: string -> Probe)
    ensures DirectoryStats(dir, listing, disk).Keys == AllEncodings
    ensures Total(DirectoryStats(dir, listing, disk)) == |Ps1Files(dir, listing)|
    ensures Ps1Files(dir, listing) == [] ==> DirectoryStats(dir, listing, disk) == ZeroCounters
  {
    CountersOfTotal(Classify(Ps1Files(dir, listing), disk));
  }

  /** Each tag is counted exactly as often as a collected file is classified
      with it. */
  lemma DirectoryStatsCountsFiles(dir: string, listing: seq<Entry>, disk: string -> Probe, e: Encoding)
    ensures DirectoryStats(dir, listing, disk)[e] ==
      |set i | 0 <= i < |Ps1Files(dir, listing)| && CheckEncoding(disk(Ps1Files(dir, listing)[i])) == e|
  {
    var files := Ps1Files(dir, listing);
    var outcomes := Classify(files, disk);
    MultisetCountIsIndexCount(outcomes, e);
    assert (set i | 0 <= i < |outcomes| && outcomes[i] == e) ==
      (set i | 0 <= i < |files| && CheckEncoding(disk(files[i])) == e);
  }

  lemma {:induction false} MultisetCountIsIndexCount(s: seq<Encoding>, e: Encoding)
    ensures multiset(s)[e] == |set i | 0 <= i < |s| && s[i] == e|
    decreases |s|
  {
    if s != [] {
      var n := |s| - 1;
      var init := s[..n];
      assert s == init + [s[n]];
      MultisetCountIsIndexCount(init, e);
      var before := set i | 0 <= i < n && init[i] == e;
      var after := set i | 0 <= i < |s| && s[i] == e;
      if s[n] == e {
        assert after == before + {n};
      } else {
        assert after == before;
      }
    }
  }

  /** `stats` holds the count of each tag among `outcomes`. */
  predicate Tallies(stats: Counters, outcomes: seq<Encoding>)
  {
    stats.Keys == AllEncodings && forall e :: e in AllEncodings ==> stats[e] == multiset(outcomes)[e]
  }

  /** Counting one more outcome keeps the table a tally and raises the total
      by one. */
  lemma CountOne(stats: Counters, outcomes: seq<Encoding>, x: Encoding)
    requires Tallies(stats, outcomes)
    ensures Tallies(stats[x := stats[x] + 1], outcomes + [x])
    ensures Total(stats[x := stats[x] + 1]) == Total(stats) + 1
  {
  }

  /** A table that tallies `outcomes` is the one `CountersOf` builds. */
  lemma TalliesIsCountersOf(stats: Counters, outcomes: seq<Encoding>)
    requires Tallies(stats, outcomes)
    ensures stats == CountersOf(outcomes)
  {
  }

  /** `checkFile` classifies every path that passes the extension test. */
  lemma AcceptedPathIsClassified(path: string, disk: string -> Probe)
    requires IsPs1(path)
    ensures CheckFile(path, disk) == Some(CheckEncoding(disk(path)))
  {
  }

  /** `checkFile` classifies every collected path. */
  lemma CollectedPathsAreClassified(dir: string, listing: seq<Entry>, disk: string -> Probe)
    ensures forall i :: 0 <= i < |Ps1Files(dir, listing)| ==>
      CheckFile(Ps1Files(dir, listing)[i], disk) == Some(CheckEncoding(disk(Ps1Files(dir, listing)[i])))
  {
    var files := Ps1Files(dir, listing);
    CollectedPathsPassFilter(dir, listing);
    forall i | 0 <= i < |files|
      ensures CheckFile(files[i], disk) == Some(CheckEncoding(disk(files[i])))
    {
      assert files[i] in files;
      AcceptedPathIsClassified(files[i], disk);
    }
  }

  /** `checkDirectory`: collect the `.ps1` files, then count each file's tag. */
  method CheckDirectory(dirPath: string, listing: seq<Entry>, disk: string -> Probe) returns (stats: Counters)
    ensures stats == DirectoryStats(dirPath, listing, disk)
    ensures stats.Keys == AllEncodings && Total(stats) == |Ps1Files(dirPath, listing)|
  {
    stats := ZeroCounters;
    var ps1Files := FindPs1Files(dirPath, listing);
    CollectedPathsAreClassified(dirPath, listing, disk);
    if |ps1Files| == 0 {
      TalliesIsCountersOf(stats, Classify(ps1Files, disk));
      return;
    }
    for i := 0 to |ps1Files|
      invariant Tallies(stats, Classify(ps1Files[..i], disk))
      invariant Total(stats) == i
    {
      var result := CheckFile(ps1Files[i], disk);
      ClassifyStep(ps1Files, i, disk);
      if result.Some? {
        CountOne(stats, Classify(ps1Files[..i], disk), result.value);
        stats := stats[result.value := stats[result.value] + 1];
      }
    }
    assert ps1Files[..|ps1Files|] == ps1Files;
    TalliesIsCountersOf(stats, Classify(ps1Files, disk));
  }
}
