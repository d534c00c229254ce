/** Replies in the style of section 4.2.1 of RFC 5321: lines "code-text", and "code text" for the last one. */
module Reply {
  import opened Text
  import opened Buffer
  import opened Wire

  // ----- one line -----

  const BUFLENLINE: nat := 4096

  /** The first three characters of the code, or the code with blanks in front. */
  function Code3(code: string): (r: string)
    ensures |r| == 3 && (|code| == 3 ==> r == code)
  { if |code| >= 3 then code[..3] else seq(3 - |code|, _ => ' ') + code }

  function LineText(last: bool, code: string, text: string): string
  { Code3(code) + [if last then ' ' else '-'] + text + "\n" }

  /** Overran is the one length for which the formatter itself writes outside its buffer. */
  datatype Formatted = Refused | Formatted(line: string) | Overran

  /** A line is right, refused or too long by one, depending only on the length of its text. */
  method FmtLine(last: bool, code: string, text: string) returns (r: Formatted)
    requires '\0' !in code && '\0' !in text
    ensures r ==
      if |text| < BUFLENLINE - 5 then Formatted(LineText(last, code, text))
      else if |text| == BUFLENLINE - 5 then Overran
      else Refused
  {
    hide CString, Put, Write;
    var buffer := new char[BUFLENLINE];
    var head := Code3(code) + [if last then ' ' else '-'];
    ghost var b0 := buffer[..];
    var n := Snprintf(buffer, 0, BUFLENLINE, head);
    PutPrefix(b0, 0, BUFLENLINE, head);
    ghost var b := buffer[..];
    n := Snprintf(buffer, 4, BUFLENLINE - 5, text);
    if n > BUFLENLINE - 5 { return Refused; }
    n := n + 4;
    buffer[n] := '\n';
    n := n + 1;
    if n == BUFLENLINE { return Overran; }
    buffer[n] := '\0';
    LinePut(b, head, text, buffer[..]);
    return Formatted(CString(buffer[..]));
  }

  lemma LinePut(b: seq<char>, head: string, text: string, r: seq<char>)
    requires |b| == BUFLENLINE && |head| == 4 && b[..4] == head && |text| < BUFLENLINE - 5
    requires '\0' !in head && '\0' !in text
    requires r == Put(b, 4, BUFLENLINE - 5, text)[4 + |text| := '\n'][5 + |text| := '\0']
    ensures CString(r) == head + text + "\n"
  {
    hide Put, CString;
    PutPrefix(b, 4, BUFLENLINE - 5, text);
    var line := head + text + "\n";
    assert r[..4 + |text|] == head + text;
    assert r == line + ['\0'] + r[6 + |text|..];
    CStringIs(line, r[6 + |text|..]);
  }

  // ----- a reply of several lines -----

  /** One line for each text, and an empty last line. */
  function ReplyLines(code: string, texts: seq<string>): (r: seq<string>)
    ensures |r| == |texts| + 1
  { seq(|texts|, i requires 0 <= i < |texts| => LineText(false, code, texts[i])) + [LineText(true, code, "")] }

  lemma ReplyAt(code: string, texts: seq<string>, i: nat)
    requires i <= |texts|
    ensures ReplyLines(code, texts)[i] ==
      if i == |texts| then LineText(true, code, "") else LineText(false, code, texts[i])
  {}

  function Concat(lines: seq<string>): string
  { if lines == [] then "" else lines[0] + Concat(lines[1..]) }

  /** The length of the text in front of the first line feed. */
  function LineEnd(s: string): (k: nat)
    ensures k <= |s| && '\n' !in s[..k] && (k < |s| ==> s[k] == '\n')
  {
    if s == "" || s[0] == '\n' then 0 else
      var k := 1 + LineEnd(s[1..]);
      assert s[..k] == [s[0]] + s[1..][..k - 1];
      k
  }

  /** A reply as a client got it: the texts of its lines but the last, that of the last, and what follows it. */
  datatype Answer = Answer(texts: seq<string>, last: string, rest: string)

  /** None means that the reply is not complete or not a reply with this code. */
  function ReadReply(code: string, s: string): (r: Option<Answer>)
    ensures r.Some? ==> forall i :: 0 <= i < |r.value.texts| ==> '\n' !in r.value.texts[i]
    decreases |s|
  {
    var k := LineEnd(s);
    if k == |s| || k < 4 || s[..3] != code then None
    else if s[3] == ' ' then Some(Answer([], s[4..k], s[k + 1..]))
    else if s[3] != '-' then None
    else
      match ReadReply(code, s[k + 1..])
      case None => None
      case Some(r) =>
        assert forall i :: 4 <= i < k ==> s[i] == s[..k][i];
        Some(r.(texts := [s[4..k]] + r.texts))
  }

  lemma {:induction false} LineEndIs(a: string, b: string)
    requires '\n' !in a
    ensures LineEnd(a + "\n" + b) == |a|
  {
    var s := a + "\n" + b;
    if a != "" {
      assert s[1..] == a[1..] + "\n" + b;
      LineEndIs(a[1..], b);
    }
  }

  lemma ReadLine(code: string, last: bool, text: string, s: string)
    requires |code| == 3 && '\n' !in code && '\n' !in text
    ensures ReadReply(code, LineText(last, code, text) + s) ==
      if last then Some(Answer([], text, s))
      else match ReadReply(code, s) case None => None case Some(r) => Some(r.(texts := [text] + r.texts))
  {
    hide LineEnd;
    var head := code + [if last then ' ' else '-'] + text;
    var all := LineText(last, code, text) + s;
    assert all == head + "\n" + s;
    LineEndIs(head, s);
    assert all[..3] == code && all[4..|head|] == text && all[|head| + 1..] == s;
  }

  predicate OneLine(texts: seq<string>) { forall i :: 0 <= i < |texts| ==> '\n' !in texts[i] }

  lemma {:induction false} ReadAll(code: string, texts: seq<string>, rest: string)
    requires |code| == 3 && '\n' !in code && OneLine(texts)
    ensures ReadReply(code, Concat(ReplyLines(code, texts)) + rest) == Some(Answer(texts, "", rest))
  {
    hide ReadReply, LineText;
    var lines := ReplyLines(code, texts);
    if texts == [] {
      assert lines[1..] == [];
      assert Concat(lines) + rest == LineText(true, code, "") + rest;
      ReadLine(code, true, "", rest);
    } else {
      assert lines[1..] == ReplyLines(code, texts[1..]);
      Cat3(lines[0], Concat(lines[1..]), rest);
      ReadAll(code, texts[1..], rest);
      ReadLine(code, false, texts[0], Concat(lines[1..]) + rest);
      assert [texts[0]] + texts[1..] == texts;
    }
  }

  /** A reply is read back as its texts, whatever follows it, if and only if none of them holds a line feed. */
  lemma ReplyExact(code: string, texts: seq<string>, rest: string)
    requires |code| == 3 && '\n' !in code
    ensures ReadReply(code, Concat(ReplyLines(code, texts)) + rest) == Some(Answer(texts, "", rest)) <==> OneLine(texts)
  {
    hide ReplyLines, Concat;
    if OneLine(texts) { ReadAll(code, texts, rest); }
  }

  /** A reply that was cut off in front of its last line, or earlier, is not taken for a complete one. */
  lemma {:induction false} CutOff(code: string, texts: seq<string>, k: nat)
    requires |code| == 3 && '\n' !in code && OneLine(texts) && k <= |texts|
    ensures ReadReply(code, Concat(ReplyLines(code, texts)[..k])) == None
  {
    hide LineText;
    var lines := ReplyLines(code, texts);
    if k > 0 {
      assert lines[..k][1..] == ReplyLines(code, texts[1..])[..k - 1];
      CutOff(code, texts[1..], k - 1);
      ReadLine(code, false, texts[0], Concat(lines[..k][1..]));
    }
  }
}
