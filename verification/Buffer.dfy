/** Writing text into a bounded, NUL-terminated part of a character buffer, as snprintf does. */
module Buffer {

  /** The buffer after snprintf has put text at off with room for len characters, terminator included. */
  function Put(b: seq<char>, off: nat, len: nat, text: string): (r: seq<char>)
    requires off + len <= |b|
    ensures |r| == |b|
  {
    if len == 0 then b else
      var k := if |text| < len then |text| else len - 1;
      b[..off] + text[..k] + ['\0'] + b[off + k + 1..]
  }

  /** Like Put, but no text leaves the buffer alone: not even a terminator is written. */
  function Write(b: seq<char>, off: nat, len: nat, text: string): (r: seq<char>)
    requires off + len <= |b|
    ensures |r| == |b|
  { if text == "" then b else Put(b, off, len, text) }

  /** What a printer returns: the exact length if that is at most len, else something larger than len. */
  predicate Reports(used: nat, len: nat, text: string)
  { if |text| <= len then used == |text| else used > len }

  /** Continuing behind text that was not too long is the same as writing both at once. */
  lemma WriteMore(b: seq<char>, off: nat, len: nat, p: string, q: string)
    requires off + len <= |b| && |p| <= len
    ensures Write(Write(b, off, len, p), off + |p|, len - |p|, q) == Write(b, off, len, p + q)
  {
    hide Put;
    if p == "" {
      assert p + q == q;
    } else if q == "" {
      assert p + q == p;
    } else if |p| < len {
      PutPut(b, off, len, p, q);
    } else {
      PutNowhere(Put(b, off, len, p), off + len, q);
      WriteRest(b, off, len, p, q);
    }
  }

  lemma PutNowhere(b: seq<char>, off: nat, text: string)
    requires off <= |b|
    ensures Put(b, off, 0, text) == b
  {}

  lemma PutPut(b: seq<char>, off: nat, len: nat, p: string, q: string)
    requires off + len <= |b| && |p| < len
    ensures Put(Put(b, off, len, p), off + |p|, len - |p|, q) == Put(b, off, len, p + q)
  {
    var b1 := Put(b, off, len, p);
    var k := if |q| < len - |p| then |q| else len - |p| - 1;
    var end := off + |p| + k + 1;
    assert b1 == (b[..off] + p) + (['\0'] + b[off + |p| + 1..]);
    assert b1[..off + |p|] == b[..off] + p;
    assert (p + q)[..|p| + k] == p + q[..k];
    assert b1[end..] == b[end..];
    assert b[..off] + p + q[..k] == b[..off] + (p + q[..k]);
  }

  /** What follows a full buffer is lost. */
  lemma WriteRest(b: seq<char>, off: nat, len: nat, p: string, q: string)
    requires off + len <= |b| && |p| >= len
    ensures Write(b, off, len, p + q) == Write(b, off, len, p)
  {
    if len > 0 {
      assert (p + q)[..len - 1] == p[..len - 1];
    }
  }

  /**
   One step of a printer: with text written and piece + rest still to come, writing piece leaves what
   writing both would leave, and giving up if that was too much leaves what the full text would leave.
   */
  lemma Step(b: seq<char>, off: nat, len: nat, text: string, piece: string, rest: string, full: string)
    requires off + len <= |b| && |text| <= len
    requires full == text + (piece + rest)
    ensures Write(Write(b, off, len, text), off + |text|, len - |text|, piece) == Write(b, off, len, text + piece)
    ensures full == text + piece + rest
    ensures |text + piece| > len ==> Write(b, off, len, text + piece) == Write(b, off, len, full) && |full| > len
  {
    WriteMore(b, off, len, text, piece);
    assert text + (piece + rest) == text + piece + rest;
    if |text + piece| > len {
      WriteRest(b, off, len, text + piece, rest);
    }
  }

  lemma First(b: seq<char>, off: nat, len: nat, piece: string, rest: string)
    requires off + len <= |b|
    ensures |piece| > len ==> Write(b, off, len, piece) == Write(b, off, len, piece + rest) && |piece + rest| > len
  {
    if |piece| > len { WriteRest(b, off, len, piece, rest); }
  }

  lemma WriteNothing(b: seq<char>, off: nat, len: nat)
    requires off + len <= |b|
    ensures Write(b, off, len, "") == b
  {}

  /** The buffer holds a terminated prefix of the text, as long as it fits, and is unchanged elsewhere. */
  lemma WriteMeans(b: seq<char>, off: nat, len: nat, text: string)
    requires off + len <= |b| && text != "" && len > 0
    ensures var r, k := Write(b, off, len, text), if |text| < len then |text| else len - 1;
      && r[off..off + k] == text[..k] && r[off + k] == '\0'
      && r[..off] == b[..off] && r[off + k + 1..] == b[off + k + 1..]
  {}

  /** The C library's snprintf for text that is already formatted. */
  method Snprintf(buf: array<char>, off: nat, len: nat, text: string) returns (n: nat)
    requires off + len <= buf.Length
    modifies buf
    ensures n == |text| && buf[..] == Put(old(buf[..]), off, len, text)
    ensures text != "" ==> buf[..] == Write(old(buf[..]), off, len, text)
  {
    n := |text|;
    if len == 0 { return; }
    var k := if |text| < len then |text| else len - 1;
    for i := 0 to k
      invariant forall j :: 0 <= j < i ==> buf[off + j] == text[j]
      invariant forall j :: 0 <= j < buf.Length && !(off <= j < off + i) ==> buf[j] == old(buf[j])
    {
      buf[off + i] := text[i];
    }
    buf[off + k] := '\0';
    PutAt(old(buf[..]), off, len, text, buf[..]);
  }

  /** Put, character by character. */
  lemma PutAt(b: seq<char>, off: nat, len: nat, text: string, r: seq<char>)
    requires off + len <= |b| == |r| && len > 0
    requires var k := if |text| < len then |text| else len - 1;
      && (forall j :: 0 <= j < k ==> r[off + j] == text[j]) && r[off + k] == '\0'
      && (forall j :: 0 <= j < |b| && !(off <= j <= off + k) ==> r[j] == b[j])
    ensures r == Put(b, off, len, text)
  {
    var k := if |text| < len then |text| else len - 1;
    assert r[..off] == b[..off];
    assert r[off..off + k] == text[..k];
    assert r[off + k + 1..] == b[off + k + 1..];
    assert r == r[..off] + r[off..off + k] + [r[off + k]] + r[off + k + 1..];
  }

  /** The C string at the start of a buffer. */
  function CString(b: seq<char>): string
  { if b == [] || b[0] == '\0' then "" else [b[0]] + CString(b[1..]) }

  lemma {:induction false} CStringIs(s: string, rest: seq<char>)
    requires '\0' !in s
    ensures CString(s + ['\0'] + rest) == s
  {
    var b := s + ['\0'] + rest;
    if s != "" {
      assert b[1..] == s[1..] + ['\0'] + rest;
      CStringIs(s[1..], rest);
    }
  }
}
