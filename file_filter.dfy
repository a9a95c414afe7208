/** Which paths the checker looks at (`checkFile`): only those whose
    extension, lower-cased, is `.ps1`. Paths are POSIX-style strings; the
    extension is what `path.extname` gives for them. */
module FileFilter {
  import opened Encodings
  import opened Bom

  /** Position of the last occurrence of `c` in `s`, if any. */
  function LastIndexOf(s: string, c: char): (r: Option<nat>)
    ensures r.Some? ==> r.value < |s| && s[r.value] == c && forall j :: r.value < j < |s| ==> s[j] != c
    ensures r.None? ==> forall j :: 0 <= j < |s| ==> s[j] != c
  {
    if s == [] then None
    else if s[|s| - 1] == c then Some(|s| - 1)
    else LastIndexOf(s[..|s| - 1], c)
  }

  /** The last component of a path: everything after its last `/`. */
  function BaseName(path: string): string
  {
    match LastIndexOf(path, '/')
    case None => path
    case Some(k) => path[k + 1..]
  }

  /** The extension of a file name: from its last `.` to the end, and empty
      when there is no dot or the only dot that counts opens the name (a
      hidden file such as `.ps1` has no extension). */
  function ExtName(name: string): string
  {
    match LastIndexOf(name, '.')
    case None => ""
    case Some(k) => if k == 0 then "" else name[k..]
  }

  /** Joins a directory path and an entry name. */
  function Join(dir: string, name: string): string
  {
    dir + "/" + name
  }

  /** Lower-casing of the ASCII letters; no other character lower-cases to
      one of `.`, `p`, `s` or `1`, so this decides the `.ps1` test exactly. */
  function LowerChar(c: char): char
  {
    if 'A' <= c <= 'Z' then (c as int + 32) as char else c
  }

  function Lower(s: string): (r: string)
    ensures |r| == |s|
  {
    seq(|s|, i requires 0 <= i < |s| => LowerChar(s[i]))
  }

  /** The checker's test on a path. */
  predicate IsPs1(path: string)
  {
    Lower(ExtName(BaseName(path))) == ".ps1"
  }

  /** A file name of at least one character followed by `.ps1` in any mix of
      letter case. */
  predicate EndsWithPs1(name: string)
  {
    var n := |name|;
    n >= 5 && name[n - 4] == '.' && (name[n - 3] == 'p' || name[n - 3] == 'P')
    && (name[n - 2] == 's' || name[n - 2] == 'S') && name[n - 1] == '1'
  }

  /** The extension test accepts exactly the paths whose last component
      ends in `.ps1`, ignoring case, after a non-empty stem. */
  lemma {:induction false} Ps1Exactly(path: string)
    ensures IsPs1(path) <==> EndsWithPs1(BaseName(path))
  {
    var b := BaseName(path);
    var n := |b|;
    if IsPs1(path) {
      var ext := ExtName(b);
      assert |ext| == 4;
      var k := LastIndexOf(b, '.').value;
      assert k > 0 && ext == b[k..];
      assert Lower(ext)[1] == 'p' && Lower(ext)[2] == 's' && Lower(ext)[3] == '1';
    }
    if EndsWithPs1(b) {
      var r := LastIndexOf(b, '.');
      assert r == Some(n - 4);
      assert Lower(b[n - 4..]) == ".ps1";
    }
  }

  /** Joining does not change the last component of the name joined, so the
      extension test gives the same answer on an entry name and on its full
      path. */
  lemma {:induction false} BaseNameOfJoin(dir: string, name: string)
    ensures BaseName(Join(dir, name)) == BaseName(name)
    ensures IsPs1(Join(dir, name)) == IsPs1(name)
  {
    var p := Join(dir, name);
    var d := |dir| + 1;
    assert p[|dir|] == '/';
    assert forall j :: d <= j < |p| ==> p[j] == name[j - d];
    var r := LastIndexOf(p, '/');
    match LastIndexOf(name, '/')
    case None =>
      assert r == Some(|dir|);
      assert p[d..] == name;
    case Some(k) =>
      assert p[d + k] == '/';
      assert r == Some(d + k);
      assert p[d + k + 1..] == name[k + 1..];
  }

  /** `checkFile`: no result for a path that fails the extension test;
      otherwise exactly the classification of that file. */
  function CheckFile(path: string, disk: string -> Probe): (r: Option<Encoding>)
    ensures r.Some? <==> EndsWithPs1(BaseName(path))
    ensures r.Some? ==> r.value == CheckEncoding(disk(path))
  {
    Ps1Exactly(path);
    if !IsPs1(path) then None else Some(CheckEncoding(disk(path)))
  }
}
