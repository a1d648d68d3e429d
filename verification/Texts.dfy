/** String literals as the C strings they stand for. */
module Texts {
  import opened Bytes
  import opened Common

  /** The code of a character; characters outside seven bits do not occur in the literals of the firmware. */
  function Code(c: char): (code: byte)
    ensures code != 0
    ensures '\0' < c < 128 as char ==> code == c as int
  {
    if '\0' < c < 128 as char then c as int else '?' as int
  }

  function Ascii(s: string): (text: Text)
    ensures |text| == |s| && forall i | 0 <= i < |s| :: text[i] == Code(s[i])
  {
    seq(|s|, i requires 0 <= i < |s| => Code(s[i]))
  }
}
