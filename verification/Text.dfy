/** Strings as sequences of Unicode code points, with the byte lengths, blank
    and control tests that the store's limits are written in. */
module Text {

  datatype Option<+T> = None | Some(value: T)

  datatype Result<+T, +E> = Ok(value: T) | Err(error: E)

  /** Unicode white space, as strings.TrimSpace cuts it. */
  predicate IsSpace(c: char) {
    var n := c as int;
    9 <= n <= 13 || n == 32 || n == 0x85 || n == 0xA0 || n == 0x1680 || 0x2000 <= n <= 0x200A ||
    n == 0x2028 || n == 0x2029 || n == 0x202F || n == 0x205F || n == 0x3000
  }

  predicate IsControl(c: char) {
    var n := c as int;
    n < 32 || 127 <= n < 160
  }

  /** Nothing is left once white space is trimmed. */
  predicate Blank(s: string) {
    forall i | 0 <= i < |s| :: IsSpace(s[i])
  }

  predicate HasControl(s: string) {
    exists i | 0 <= i < |s| :: IsControl(s[i])
  }

  function CharBytes(c: char): nat {
    var n := c as int;
    if n < 0x80 then 1 else if n < 0x800 then 2 else if n < 0x10000 then 3 else 4
  }

  /** Length in UTF-8 bytes, which is what Go's len counts. */
  function ByteLen(s: string): nat {
    if s == "" then 0 else CharBytes(s[0]) + ByteLen(s[1..])
  }

  predicate Contains(s: string, part: string) {
    exists i | 0 <= i <= |s| :: part <= s[i..]
  }

  function Prefix(s: string, count: nat): string {
    if |s| <= count then s else s[..count]
  }

  /** The loop that cuts a title out of a memory's text. */
  method FirstRunes(value: string, limit: nat) returns (r: string)
    ensures r == Prefix(value, limit)
  {
    if |value| <= limit {
      return value;
    }
    var count := limit;
    for i := 0 to |value|
      invariant count == limit - i
    {
      if count == 0 {
        return value[..i];
      }
      count := count - 1;
    }
    return value;
  }
}
