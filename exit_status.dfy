/** The process exit status chosen by the checker's entry point (`main`).
    The command line is the argument vector; the file system is the kind of
    the target path, its listing when it is a directory, and the disk that
    answers the reads of each file. */
module ExitStatus {
  import opened Encodings
  import opened Bom
  import opened DirectoryTree
  import opened DirectoryCheck

  /** What the target path names. */
  datatype Target =
    | Missing
    | RegularFile
    | DirectoryTarget(listing: seq<Entry>)
    | NeitherFileNorDirectory

  /** Exit status of one run: 1 for a wrong argument count, a missing
      target, a target that is neither a file nor a directory, or a directory
      holding a `.ps1` file classified UTF-8 without BOM; 0 otherwise. */
  function Exit(argv: seq<string>, stat: string -> Target, disk: string -> Probe): int
  {
    if |argv| != 3 then 1
    else
      var target := argv[2];
      match stat(target)
      case Missing => 1
      case RegularFile => 0
      case DirectoryTarget(listing) =>
        if DirectoryStats(target, listing, disk)[Utf8NoBom] > 0 then 1 else 0
      case NeitherFileNorDirectory => 1
  }

  /** In directory mode the run fails exactly when some collected file is
      classified UTF-8 without BOM: UTF-16, unknown and unreadable files
      never make it fail. */
  lemma DirectoryModeFailsIffSomeFileLacksBom(argv: seq<string>, stat: string -> Target, disk: string -> Probe)
    requires |argv| == 3 && stat(argv[2]).DirectoryTarget?
    ensures Exit(argv, stat, disk) == 1 <==>
      exists p :: p in Ps1Files(argv[2], stat(argv[2]).listing) && CheckEncoding(disk(p)) == Utf8NoBom
    ensures Exit(argv, stat, disk) in {0, 1}
  {
    var files := Ps1Files(argv[2], stat(argv[2]).listing);
    var outcomes := Classify(files, disk);
    if exists p :: p in files && CheckEncoding(disk(p)) == Utf8NoBom {
      var p :| p in files && CheckEncoding(disk(p)) == Utf8NoBom;
      var i :| 0 <= i < |files| && files[i] == p;
      assert outcomes[i] == Utf8NoBom;
    }
    if exists i :: 0 <= i < |outcomes| && outcomes[i] == Utf8NoBom {
      var i :| 0 <= i < |outcomes| && outcomes[i] == Utf8NoBom;
      assert files[i] in files;
    }
  }

  /** Changing what a directory's files hold, without changing which of them
      lack a byte order mark, never changes the exit status. */
  lemma OnlyMissingBomsMatter(argv: seq<string>, stat: string -> Target, disk1: string -> Probe, disk2: string -> Probe)
    requires |argv| == 3 && stat(argv[2]).DirectoryTarget?
    requires forall p :: p in Ps1Files(argv[2], stat(argv[2]).listing) ==>
      (CheckEncoding(disk1(p)) == Utf8NoBom <==> CheckEncoding(disk2(p)) == Utf8NoBom)
    ensures Exit(argv, stat, disk1) == Exit(argv, stat, disk2)
  {
    DirectoryModeFailsIffSomeFileLacksBom(argv, stat, disk1);
    DirectoryModeFailsIffSomeFileLacksBom(argv, stat, disk2);
  }

  /** Single-file mode never fails because of the encoding found; the other
      target kinds and a wrong argument count always fail. */
  lemma NonDirectoryModes(argv: seq<string>, stat: string -> Target, disk: string -> Probe)
    ensures |argv| != 3 ==> Exit(argv, stat, disk) == 1
    ensures |argv| == 3 && stat(argv[2]).RegularFile? ==> Exit(argv, stat, disk) == 0
    ensures |argv| == 3 && (stat(argv[2]).Missing? || stat(argv[2]).NeitherFileNorDirectory?) ==> Exit(argv, stat, disk) == 1
  {
  }

  /** An empty directory, or one without `.ps1` files, succeeds. */
  lemma NoFilesSucceeds(argv: seq<string>, stat: string -> Target, disk: string -> Probe)
    requires |argv| == 3 && stat(argv[2]).DirectoryTarget?
    requires Ps1Files(argv[2], stat(argv[2]).listing) == []
    ensures Exit(argv, stat, disk) == 0
  {
  }
}
