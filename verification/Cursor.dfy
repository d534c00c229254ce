/** The parser's view of a string: a read position and a commit point to fall back to. */
module Cursor {
  import opened Text

  class StringInput {
    const text: string
    var cur: nat
    var done: nat

    ghost predicate Valid()
      reads this
    { done <= cur <= |text| }

    /** The unread text. */
    ghost function Rest(): (s: string)
      requires Valid()
      reads this
    { text[cur..] }

    constructor (text: string)
      ensures this.text == text && cur == 0 && done == 0 && Valid()
    {
      this.text := text;
      cur, done := 0, 0;
    }

    method Eof() returns (b: bool)
      requires Valid()
      ensures b <==> Rest() == ""
    { b := cur == |text|; }

    method Col() returns (n: nat)
      requires Valid()
      ensures n == cur <= |text|
    { n := cur; }

    /** Reads a character, if there is one; None is the end of the input. */
    method Next() returns (c: Option<char>)
      requires Valid()
      modifies this`cur
      ensures Valid()
      ensures if old(Rest()) == "" then c == None && cur == old(cur)
              else c == Some(old(Rest())[0]) && cur == old(cur) + 1
    {
      if cur == |text| { return None; }
      c := Some(text[cur]);
      cur := cur + 1;
    }

    /** Commits to everything read so far. */
    method Done()
      requires Valid()
      modifies this`done
      ensures Valid() && done == cur
    { done := cur; }

    /** Returns to the commit point. */
    method Undo()
      requires Valid()
      modifies this`cur
      ensures Valid() && cur == done
    { cur := done; }
  }
}
