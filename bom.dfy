/** Classification of a file by its byte order mark (`checkEncoding`).
    The file system is not modelled: a `Probe` says what the two reads the
    checker makes of one file returned. */
module Bom {
  import opened Encodings

  type byte = bv8

  /** Outcome of the first, raw read of a file. */
  datatype ReadResult = ReadFailed | Contents(bytes: seq<byte>)

  /** What the checker learns about one file: the raw read, and whether the
      second read, which decodes the file as UTF-8, succeeded. */
  datatype Probe = Probe(read: ReadResult, decodes: bool)

  /** The UTF-8 signature (section 6 of RFC 3629). */
  const Utf8Signature: seq<byte> := [0xEF, 0xBB, 0xBF]
  /** The UTF-16 byte order marks (section 3.2 of RFC 2781). */
  const Utf16LeMark: seq<byte> := [0xFF, 0xFE]
  const Utf16BeMark: seq<byte> := [0xFE, 0xFF]

  predicate StartsWith(s: seq<byte>, prefix: seq<byte>)
  {
    |prefix| <= |s| && s[..|prefix|] == prefix
  }

  /** Some byte order mark the checker knows opens `s`. */
  predicate HasBom(s: seq<byte>)
  {
    StartsWith(s, Utf8Signature) || StartsWith(s, Utf16LeMark) || StartsWith(s, Utf16BeMark)
  }

  function Min(a: int, b: int): int { if a <= b then a else b }

  /** Indexing a buffer past its end yields no byte (JavaScript's `undefined`),
      which equals no byte value. */
  function ByteAt(s: seq<byte>, i: nat): (r: Option<byte>)
    ensures r.Some? <==> i < |s|
  {
    if i < |s| then Some(s[i]) else None
  }

  /** The checker's classification of one file. */
  function CheckEncoding(p: Probe): Encoding
  {
    match p.read
    case ReadFailed => Error
    case Contents(buffer) =>
      var first := buffer[..Min(3, |buffer|)];
      if ByteAt(first, 0) == Some(0xEF) && ByteAt(first, 1) == Some(0xBB) && ByteAt(first, 2) == Some(0xBF) then
        Utf8Bom
      else if ByteAt(first, 0) == Some(0xFF) && ByteAt(first, 1) == Some(0xFE) then
        Utf16Le
      else if ByteAt(first, 0) == Some(0xFE) && ByteAt(first, 1) == Some(0xFF) then
        Utf16Be
      else if p.decodes then
        Utf8NoBom
      else
        Unknown
  }

  /** The checker's six tags, once more, as a table of signatures tried in
      order; used as an independent statement of what `CheckEncoding` does. */
  function FirstSignature(s: seq<byte>, table: seq<(seq<byte>, Encoding)>): (r: Option<Encoding>)
    ensures r.Some? ==> exists i :: 0 <= i < |table| && StartsWith(s, table[i].0) && r.value == table[i].1
    ensures r.None? ==> forall i :: 0 <= i < |table| ==> !StartsWith(s, table[i].0)
  {
    if table == [] then None
    else if StartsWith(s, table[0].0) then Some(table[0].1)
    else
      var r := FirstSignature(s, table[1..]);
      assert r.Some? ==> exists i :: 1 <= i < |table| && StartsWith(s, table[i].0) && r.value == table[i].1 by {
        if r.Some? {
          var j :| 0 <= j < |table[1..]| && StartsWith(s, table[1..][j].0) && r.value == table[1..][j].1;
          assert table[1..][j] == table[j + 1];
        }
      }
      assert r.None? ==> forall i :: 1 <= i < |table| ==> !StartsWith(s, table[i].0) by {
        if r.None? {
          forall i | 1 <= i < |table| ensures !StartsWith(s, table[i].0) {
            assert table[1..][i - 1] == table[i];
          }
        }
      }
      r
  }

  const SignatureTable: seq<(seq<byte>, Encoding)> :=
    [(Utf8Signature, Utf8Bom), (Utf16LeMark, Utf16Le), (Utf16BeMark, Utf16Be)]

  /** A file that cannot be read is `error`, whatever its contents, and
      nothing else is. */
  lemma ErrorExactlyWhenUnreadable(p: Probe)
    ensures CheckEncoding(p) == Error <==> p.read.ReadFailed?
  {
  }

  /** Whenever the read succeeds, the result is the first signature of the
      table that opens the file, or else a decision on the decoding read. */
  lemma CheckEncodingMatchesSignatureTable(bytes: seq<byte>, decodes: bool)
    ensures CheckEncoding(Probe(Contents(bytes), decodes)) ==
      match FirstSignature(bytes, SignatureTable)
      case Some(e) => e
      case None => if decodes then Utf8NoBom else Unknown
  {
    var first := bytes[..Min(3, |bytes|)];
    assert forall i :: 0 <= i < |first| ==> first[i] == bytes[i];
    assert StartsWith(bytes, Utf8Signature) <==>
      ByteAt(first, 0) == Some(0xEF) && ByteAt(first, 1) == Some(0xBB) && ByteAt(first, 2) == Some(0xBF) by {
      if ByteAt(first, 0) == Some(0xEF) && ByteAt(first, 1) == Some(0xBB) && ByteAt(first, 2) == Some(0xBF) {
        assert bytes[..3] == Utf8Signature;
      }
    }
    assert StartsWith(bytes, Utf16LeMark) <==> ByteAt(first, 0) == Some(0xFF) && ByteAt(first, 1) == Some(0xFE) by {
      if ByteAt(first, 0) == Some(0xFF) && ByteAt(first, 1) == Some(0xFE) {
        assert bytes[..2] == Utf16LeMark;
      }
    }
    assert StartsWith(bytes, Utf16BeMark) <==> ByteAt(first, 0) == Some(0xFE) && ByteAt(first, 1) == Some(0xFF) by {
      if ByteAt(first, 0) == Some(0xFE) && ByteAt(first, 1) == Some(0xFF) {
        assert bytes[..2] == Utf16BeMark;
      }
    }
    var rest := SignatureTable[1..];
    assert rest == [(Utf16LeMark, Utf16Le), (Utf16BeMark, Utf16Be)];
    assert rest[1..] == [(Utf16BeMark, Utf16Be)];
    assert rest[1..][1..] == [];
    assert FirstSignature(bytes, rest[1..]) ==
      if StartsWith(bytes, Utf16BeMark) then Some(Utf16Be) else None;
    assert FirstSignature(bytes, rest) ==
      if StartsWith(bytes, Utf16LeMark) then Some(Utf16Le) else FirstSignature(bytes, rest[1..]);
    assert FirstSignature(bytes, SignatureTable) ==
      if StartsWith(bytes, Utf8Signature) then Some(Utf8Bom) else FirstSignature(bytes, rest);
  }

  /** No file starts with two different marks, so the order in which the
      checker tests them does not matter. */
  lemma {:induction false} MarksAreDisjoint(s: seq<byte>)
    ensures !(StartsWith(s, Utf8Signature) && StartsWith(s, Utf16LeMark))
    ensures !(StartsWith(s, Utf8Signature) && StartsWith(s, Utf16BeMark))
    ensures !(StartsWith(s, Utf16LeMark) && StartsWith(s, Utf16BeMark))
  {
    if StartsWith(s, Utf8Signature) { assert s[0] == s[..3][0] == 0xEF; }
    if StartsWith(s, Utf16LeMark) { assert s[0] == s[..2][0] == 0xFF; }
    if StartsWith(s, Utf16BeMark) { assert s[0] == s[..2][0] == 0xFE; }
  }

  /** Each BOM tag is reported exactly for the files that start with its mark. */
  lemma BomTagsExactlyForTheirMarks(bytes: seq<byte>, decodes: bool)
    ensures CheckEncoding(Probe(Contents(bytes), decodes)) == Utf8Bom <==> StartsWith(bytes, Utf8Signature)
    ensures CheckEncoding(Probe(Contents(bytes), decodes)) == Utf16Le <==> StartsWith(bytes, Utf16LeMark)
    ensures CheckEncoding(Probe(Contents(bytes), decodes)) == Utf16Be <==> StartsWith(bytes, Utf16BeMark)
  {
  }

  /** Without a mark the decoding read alone decides: `utf8-no-bom` when it
      succeeds, `unknown` when it fails; with a mark it is never consulted. */
  lemma NoBomDecidedByDecodingRead(bytes: seq<byte>, decodes: bool)
    ensures !HasBom(bytes) ==> CheckEncoding(Probe(Contents(bytes), decodes)) == (if decodes then Utf8NoBom else Unknown)
    ensures HasBom(bytes) ==> CheckEncoding(Probe(Contents(bytes), decodes)) == CheckEncoding(Probe(Contents(bytes), !decodes))
  {
  }

  /** `unknown` is reported only for a readable file without a mark whose
      decoding read failed. */
  lemma UnknownExactly(p: Probe)
    ensures CheckEncoding(p) == Unknown <==> p.read.Contents? && !HasBom(p.read.bytes) && !p.decodes
  {
  }

  /** Only the first three bytes are looked at. */
  lemma OnlyFirstThreeBytesMatter(s: seq<byte>, t: seq<byte>, decodes: bool)
    requires s[..Min(3, |s|)] == t[..Min(3, |t|)]
    ensures CheckEncoding(Probe(Contents(s), decodes)) == CheckEncoding(Probe(Contents(t), decodes))
  {
  }

  /** A file shorter than two bytes, or holding just the first two bytes of
      the UTF-8 signature, carries no mark. */
  lemma ShortFilesHaveNoBom(s: seq<byte>, decodes: bool)
    requires |s| < 2 || s == [0xEF, 0xBB]
    ensures CheckEncoding(Probe(Contents(s), decodes)) == (if decodes then Utf8NoBom else Unknown)
  {
  }
}
