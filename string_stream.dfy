/** The sequential cursor of lib/string-stream.js (index.js:109-129 is an
    identical private copy, modelled by the same class). */
module Streams {
  import opened Wrappers

  /** What `peek()` sees at position `pos` of `s`: the character there, or
      `undefined` past the end. */
  function CharAt(s: string, pos: nat): (c: Option<char>)
    ensures c.Some? <==> pos < |s|
    ensures c.Some? ==> c.value == s[pos]
  {
    if pos < |s| then Some(s[pos]) else None
  }

  class StringStream {
    /** The scanned text and its length; neither changes after construction. */
    const str: string
    const len: nat
    /** The cursor; callers also assign it directly (index.js:82). */
    var pos: nat

    /** The cursor never passes the end of the text. */
    ghost predicate Valid()
      reads this
    {
      len == |str| && pos <= len
    }

    constructor (s: string)
      ensures str == s && len == |s| && pos == 0
      ensures Valid()
    {
      str := s;
      pos := 0;
      len := |s|;
    }

    /** True once the cursor has reached the end; changes nothing. */
    method Eol() returns (b: bool)
      ensures b <==> pos >= len
    {
      b := pos >= len;
    }

    /** Reads the current character and moves past it; at the end it
        returns nothing and stays put. */
    method Next() returns (c: Option<char>)
      requires Valid()
      modifies this`pos
      ensures Valid()
      ensures old(pos) < len ==> c == Some(str[old(pos)]) && pos == old(pos) + 1
      ensures old(pos) >= len ==> c == None && pos == old(pos)
    {
      if pos < len {
        c := Some(str[pos]);
        pos := pos + 1;
      } else {
        c := None;
      }
    }

    /** The current character, or nothing at the end; the cursor stays put. */
    method Peek() returns (c: Option<char>)
      ensures c == CharAt(str, pos)
    {
      c := if pos < |str| then Some(str[pos]) else None;
    }
  }
}
