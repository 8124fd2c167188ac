/** A cheap fingerprint of a word: enough to tell the words of a small vocabulary apart. */
module WordMarks {
  import opened Bytes

  /** Length, first, middle and last character. */
  datatype Mark = Mark(len: nat, first: char, middle: char, last: char)

  function MarkOf(s: bytes): Mark
    requires s != []
  {
    Mark(|s|, s[0], s[|s| / 2], s[|s| - 1])
  }

  /** Characters the words of this repository's file formats are made of. */
  type wordChar = c: byte | 'A' <= c <= 'Z' || c == '_' || c == '2' witness 'A'
}
