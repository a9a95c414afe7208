/** The six encoding tags the checker reports, and the option type used for
    "no result" (the checker's `null`). */
module Encodings {

  datatype Option<T> = None | Some(value: T)

  /** The closed set of outcomes of classifying one file. */
  datatype Encoding = Utf8Bom | Utf8NoBom | Utf16Le | Utf16Be | Unknown | Error

  /** Every tag, i.e. the key set of the summary counter table. */
  const AllEncodings: set<Encoding> := {Utf8Bom, Utf8NoBom, Utf16Le, Utf16Be, Unknown, Error}

  /** The string key under which the checker reports and counts a tag. */
  function Tag(e: Encoding): (t: string)
  {
    match e
    case Utf8Bom => "utf8-bom"
    case Utf8NoBom => "utf8-no-bom"
    case Utf16Le => "utf16-le"
    case Utf16Be => "utf16-be"
    case Unknown => "unknown"
    case Error => "error"
  }

  /** The table covers every tag, and distinct tags have distinct keys, so
      counting by key is counting by tag. */
  lemma TagsAreKeys(a: Encoding, b: Encoding)
    ensures a in AllEncodings
    ensures Tag(a) == Tag(b) <==> a == b
  {
  }
}
