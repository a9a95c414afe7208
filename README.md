# PowerShell UTF-8 BOM checker — a Dafny model

The checker script takes a file or a directory. It reports, for each
PowerShell script (`.ps1`), which byte order mark the file starts with. In
directory mode it also prints a six-way summary, and the process fails when
some script is classified UTF-8 without BOM; single-file mode never fails
because of the encoding found. This project models the decision logic of
that script and proves its properties:

- `Bom` (bom.dfy) is the classifier `checkEncoding`. It maps a file's
  leading bytes to one of six tags: `utf8-bom` (EF BB BF, section 6 of
  RFC 3629), `utf16-le` (FF FE) and `utf16-be` (FE FF, section 3.2 of
  RFC 2781), `utf8-no-bom`, `unknown` and `error`. The two file reads are
  abstract inputs, bundled in a `Probe`. The first read either fails or
  yields the bytes. The second, decoding read either succeeds or fails.
- `FileFilter` (file_filter.dfy) is `checkFile`: only a path whose
  extension, lower-cased, is `.ps1` is classified. It also models the
  part of `path.extname` and `path.join` that this test relies on.
- `DirectoryTree` (directory_tree.dfy) is `findPs1Files` and its inner
  `traverse`. A directory is a listing: a sequence of entries, each a
  regular file, a subdirectory with its own listing, or something else.
  `traverse` pushes onto one shared array, so it is modelled as the class
  `Ps1Collector`. Its field `found` is that array, and the recursive method
  `Traverse` appends to it. `Traverse` is proved against the function
  `Ps1Files`.
- `DirectoryCheck` (directory_check.dfy) is `checkDirectory`. It runs a
  counting loop over a six-key counter table, a `map<Encoding, nat>`. The
  loop is proved against a declarative tally: each counter equals the
  multiplicity of its tag among the classifications of the collected files.
- `ExitStatus` (exit_status.dfy) is the exit-status decision of `main`, as
  a function of the argument vector, the kind of the target path and the
  disk.
- `Encodings` (encodings.dfy) holds the six tags and their string keys.

## Model

| member | source | states |
|---|---|---|
| `Encodings.TagsAreKeys` | skills/powershell-utf8-fixer/scripts/check_powershell_encoding.js:72-79 | the counter table has one key per tag, and distinct tags have distinct keys |
| `Bom.ErrorExactlyWhenUnreadable` | skills/powershell-utf8-fixer/scripts/check_powershell_encoding.js:20-53 | a failed first read gives `error` whatever the bytes, and `error` arises in no other way |
| `Bom.CheckEncodingMatchesSignatureTable` | skills/powershell-utf8-fixer/scripts/check_powershell_encoding.js:20-53 | after a successful read the tag is that of the first of the three marks (UTF-8, UTF-16 LE, UTF-16 BE) the file starts with; with no mark it is `utf8-no-bom` if the decoding read succeeds, else `unknown` |
| `Bom.MarksAreDisjoint` | skills/powershell-utf8-fixer/scripts/check_powershell_encoding.js:26-39 | no byte sequence starts with two of the three marks, so the order of the tests does not matter |
| `Bom.BomTagsExactlyForTheirMarks` | skills/powershell-utf8-fixer/scripts/check_powershell_encoding.js:23-39 | `utf8-bom`, `utf16-le` and `utf16-be` are each given if and only if the file starts with EF BB BF, FF FE or FE FF respectively |
| `Bom.NoBomDecidedByDecodingRead` | skills/powershell-utf8-fixer/scripts/check_powershell_encoding.js:40-48 | without a mark the result is `utf8-no-bom` or `unknown` as the decoding read succeeds or fails; with a mark, the decoding read has no effect |
| `Bom.UnknownExactly` | skills/powershell-utf8-fixer/scripts/check_powershell_encoding.js:42-48 | `unknown` is given if and only if the first read succeeded, no mark is present and the decoding read failed |
| `Bom.OnlyFirstThreeBytesMatter` | skills/powershell-utf8-fixer/scripts/check_powershell_encoding.js:23 | two readable files with the same first three bytes (or the same whole content, when shorter) get the same tag |
| `Bom.ShortFilesHaveNoBom` | skills/powershell-utf8-fixer/scripts/check_powershell_encoding.js:23-45 | an empty or one-byte file, and the two bytes EF BB alone, match no mark |
| `FileFilter.Ps1Exactly` | skills/powershell-utf8-fixer/scripts/check_powershell_encoding.js:59 | the extension test accepts a path if and only if its last component is a non-empty stem followed by `.ps1` in any letter case; so `X.PS1` is accepted and a bare `.ps1` is not |
| `FileFilter.BaseNameOfJoin` | skills/powershell-utf8-fixer/scripts/check_powershell_encoding.js:108-114 | joining a directory path and an entry name keeps the name's last component, so the test gives the same answer on the entry name and on the joined path |
| `FileFilter.CheckFile` | skills/powershell-utf8-fixer/scripts/check_powershell_encoding.js:58-66 | no result exactly when the last component does not end in `.ps1` (any case, non-empty stem); otherwise exactly the file's classification |
| `DirectoryTree.Ps1FilesAreFilteredRegularFiles` | skills/powershell-utf8-fixer/scripts/check_powershell_encoding.js:101-123 | the collected paths are exactly the regular files of the whole tree that pass the extension test, in depth-first listing order |
| `DirectoryTree.CollectedPathsPassFilter` | skills/powershell-utf8-fixer/scripts/check_powershell_encoding.js:110-117 | a path is collected if and only if it is a regular file of the tree that passes the extension test; no more paths are collected than there are regular files |
| `DirectoryTree.Ps1Collector.constructor` | skills/powershell-utf8-fixer/scripts/check_powershell_encoding.js:102 | the shared array starts empty |
| `DirectoryTree.Ps1Collector.Traverse` | skills/powershell-utf8-fixer/scripts/check_powershell_encoding.js:104-119 | visiting a listing appends, to what was collected before, its `.ps1` files in depth-first listing order, descending into every subdirectory |
| `DirectoryTree.FindPs1Files` | skills/powershell-utf8-fixer/scripts/check_powershell_encoding.js:101-123 | the result is the depth-first, listing-order sequence of `.ps1` file paths |
| `DirectoryCheck.AcceptedPathIsClassified` | skills/powershell-utf8-fixer/scripts/check_powershell_encoding.js:58-66 | a path that passes the extension test gets a result, namely its classification |
| `DirectoryCheck.CollectedPathsAreClassified` | skills/powershell-utf8-fixer/scripts/check_powershell_encoding.js:88-92 | every collected file gets a result, so the `if (result)` guard never skips one |
| `DirectoryCheck.CountOne` | skills/powershell-utf8-fixer/scripts/check_powershell_encoding.js:91 | incrementing one counter keeps the table a tally of the outcomes and raises the sum by exactly one |
| `DirectoryCheck.CountersOfTotal` | skills/powershell-utf8-fixer/scripts/check_powershell_encoding.js:88-93 | counting each outcome under its tag gives counters that sum to the number of outcomes |
| `DirectoryCheck.DirectoryStatsTotal` | skills/powershell-utf8-fixer/scripts/check_powershell_encoding.js:72-95 | the six counters sum to the number of `.ps1` files found; when none is found all six are zero |
| `DirectoryCheck.DirectoryStatsCountsFiles` | skills/powershell-utf8-fixer/scripts/check_powershell_encoding.js:88-93 | each counter is the number of collected files classified with its tag |
| `DirectoryCheck.CheckDirectory` | skills/powershell-utf8-fixer/scripts/check_powershell_encoding.js:71-96 | the loop produces the declarative tally of the collected files, with all six keys, and its counters sum to the number of files found |
| `ExitStatus.DirectoryModeFailsIffSomeFileLacksBom` | skills/powershell-utf8-fixer/scripts/check_powershell_encoding.js:148-166 | in directory mode the status is 1 if and only if some collected file is classified `utf8-no-bom`, and 0 otherwise |
| `ExitStatus.OnlyMissingBomsMatter` | skills/powershell-utf8-fixer/scripts/check_powershell_encoding.js:161-166 | UTF-16, `unknown` and `error` results never change the directory-mode status |
| `ExitStatus.NonDirectoryModes` | skills/powershell-utf8-fixer/scripts/check_powershell_encoding.js:129-170 | a wrong argument count, a missing target and a target that is neither file nor directory give 1; single-file mode gives 0 whatever the encoding |
| `ExitStatus.NoFilesSucceeds` | skills/powershell-utf8-fixer/scripts/check_powershell_encoding.js:83-86 | a directory without `.ps1` files gives status 0 |

## Left out

- File-system calls (`readFileSync`, `readdirSync`, `statSync`, `existsSync`) are not modelled as I/O. Each file is a `Probe`: a failed or successful raw read, plus a flag for the decoding read. A directory is its listing. The target's kind is a parameter of `Exit`.
- A listing or `stat` call that throws is not modelled. Such an exception escapes `findPs1Files` or `main` uncaught, and the process ends with an error. The model assumes every directory can be listed.
- A file that changes between reads is not modelled. The two reads of one file are independent inputs. A file read by `checkDirectory` is assumed to hold what the disk function says.
- UTF-8 validity is not modelled. The decoding read is only a success/failure flag, since Node's decoder does not reject malformed input.
- `path.extname` is modelled as the suffix from the last `.` of the last `/`-separated component, empty when that dot opens the component. Node's function differs only on the name `..`, whose extension is never `.ps1`. Trailing slashes and Windows separators are not modelled.
- `path.join` is modelled as `dir + "/" + name`, without normalisation. Paths collected under a directory given with a trailing slash, or as `.`, are spelled differently from Node's. Only their last component matters to any property here.
- `toLowerCase` is modelled as lower-casing A–Z only. No other character lower-cases to `.`, `p`, `s` or `1`, so the `.ps1` test is decided exactly.
- Console output is not modelled: status texts, `padEnd` alignment, the separator lines and the summary. Neither are the `require.main` guard and the module exports.
- The spreadsheet analyzer and the BOM-adding fixer script of the same repository are not part of this model.
