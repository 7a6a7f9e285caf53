/** The values the machine moves between input, carry, memory and output. */
module Bytes {

  /** A byte is a number or a single character. The source types the text case as a string;
      every text value it builds is a single letter. */
  datatype ByteValue = Num(n: int) | Chr(c: char)

  /** A value that may be absent: an empty carry or an empty memory cell (null). */
  datatype Option<+T> = None | Some(value: T)
}
