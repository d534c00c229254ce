/** What can be said of the messages and columns that a text which is no filter leads to. */
module FaultProofs {
  import opened Text
  import opened Filter
  import opened Grammar
  import opened GrammarProofs
  import opened Faults

  /** The messages that are ever seen: others are always preceded by one of these. */
  const SEEN: set<Message> := {EofInEscape, MissingTermination, ExpectingValue, InvalidValue, EofInsteadOfOperator,
                               UnknownField, InvalidValueOperator, InvalidMatch, MissingCloseBrace,
                               UnexpectedCloseBrace, InvalidOperator, JunkAtEnd}

  predicate Fine(fault: Fault, s: string) { fault.why in SEEN && fault.left <= |s| }

  lemma {:induction false} BodyFine(s: string)
    requires ReadBody(s).None?
    ensures Fine(BodyFault(s), s) && BodyFault(s).left == 0
    ensures BodyFault(s).why == EofInEscape || BodyFault(s).why == MissingTermination
  {
    if s != "" && s != "\\" { BodyFine(s[|ItemText(FirstItem(s))|..]); }
  }

  lemma ValueFine(s: string)
    requires ReadValue(s).None?
    ensures Fine(ValueFault(s), s)
  {
    hide ReadBody, BodyFault;
    if s != "" && s[0] == '"' { BodyFine(s[1..]); }
  }

  lemma {:induction false} ItemsFine(s: string)
    requires Trimmed(s) && ReadItems(s).None?
    ensures Fine(ItemsFault(s), s)
    decreases |s|
  {
    hide ReadValue, ValueFault, Blank;
    match ReadValue(Trim(s[1..]))
    case None => ValueFine(Trim(s[1..]));
    case Some((_, rest)) => ItemsFine(rest);
  }

  lemma TestFine(s: string)
    requires ReadTest(s).None?
    ensures Fine(TestFault(s), s)
  {
    hide ReadValue, ReadItems, ValueFault, ItemsFault, Blank, NameLen, OpLen, OpOf, FieldOf, LowerAll, Allowed;
    var s2 := Trim(s[NameLen(s)..]);
    if FieldOf(LowerAll(s[..NameLen(s)])).Some? && OpLen(s2) > 0 {
      var s3 := Trim(s2[OpLen(s2)..]);
      match ReadValue(s3)
      case None => ValueFine(s3);
      case Some((v, rest)) =>
        ValueSound(s3);
        if OpOf(s2[..OpLen(s2)]) == In && ReadItems(rest).None? { ItemsFine(rest); }
    }
  }

  lemma {:induction false} OneFine(s: string)
    requires ReadOne(s).None?
    ensures Fine(OneFault(s), s)
    decreases |s|, 0
  {
    hide ReadTest, ReadExpr, TestFault, ExprFault, Blank;
    if s == "" || (s[0] != ')' && s[0] != '(' && s[0] != '!') {
      TestFine(s);
    } else if s[0] == '(' && ReadExpr(Trim(s[1..])).None? {
      ExprFine(Trim(s[1..]));
    } else if s[0] == '!' {
      OneFine(Trim(s[1..]));
    }
  }

  lemma {:induction false} ExprFine(s: string)
    requires ReadExpr(s).None?
    ensures Fine(ExprFault(s), s)
    decreases |s|, 1
  {
    hide ReadOne, OneFault, Blank;
    match ReadOne(s)
    case None => OneFine(s);
    case Some((_, rest)) => if rest[0] == '|' || rest[0] == '&' { OneFine(Trim(rest[1..])); }
  }

  /** Every text that is no filter leads to one of these messages, and to a column within the text. */
  lemma ParseFine(s: string)
    requires Parse(s).None?
    ensures Fine(ParseFault(s), s)
  {
    hide ReadExpr, ExprFault, Blank;
    if ReadExpr(Trim(s)).None? { ExprFine(Trim(s)); }
  }

  // ----- what each message means -----

  /** A filter before a closing parenthesis, blanks in front of it included. */
  lemma ClosedIsRead(x: string, rest: string)
    requires Parse(x).Some?
    ensures var r := ReadExpr(Trim(x + (")" + rest))); r.Some? && r.value.1 == ")" + rest
  {
    hide ReadExpr, ExprText, ExprOk, Blank, Trim, Parse;
    ParserAcceptsGrammar(x, Parse(x).value);
    var gap, t :| Derives(x, gap, t, Parse(x).value);
    ExprComplete(t, ")" + rest);
    BlankSplit(gap, ExprText(t) + (")" + rest));
    Cat3(gap, ExprText(t), ")" + rest);
  }

  /** A filter in parentheses is read as one operand. */
  lemma EnclosedIsRead(x: string, rest: string)
    requires Parse(x).Some? && Trimmed(rest)
    ensures var r := ReadOne("(" + x + ")" + rest); r.Some? && r.value.1 == rest
    ensures Trimmed("(" + x + ")" + rest)
  {
    hide ReadExpr, Blank, Trim, Parse;
    ClosedIsRead(x, rest);
    var s := "(" + x + ")" + rest;
    Cat4("(", x, ")", rest);
    Joined("(", x + (")" + rest));
    Joined(")", rest);
    TrimTrimmed(rest);
    assert s[0] == '(' && s[1..] == x + (")" + rest);
  }

  /** The fault of a text is that of its first operand, or of what follows it. */
  lemma FaultOfOne(s: string)
    requires Trimmed(s)
    ensures match ReadOne(s)
      case None => Parse(s).None? && ParseFault(s) == OneFault(s)
      case Some((_, rest)) =>
        && (rest != "" && rest[0] !in ")|&" ==> Parse(s).None? && ParseFault(s) == Fault(InvalidOperator, |rest|))
        && (rest != "" && rest[0] == ')' ==> Parse(s).None? && ParseFault(s) == Fault(JunkAtEnd, |rest| - 1))
  {
    hide ReadOne, OneFault, Blank, Trim;
    TrimTrimmed(s);
  }

  /** A parenthesis that is not closed. */
  lemma OpenFault(x: string)
    requires Parse(x).Some?
    ensures Parse("(" + x).None? && ParseFault("(" + x) == Fault(MissingCloseBrace, 0)
  {
    hide ReadExpr, Parse, ParseFault, Blank, Trim;
    var s := "(" + x;
    assert s[1..] == x && s[0] == '(';
    ParsedIsRead(x);
    FaultOfOne(s);
  }

  lemma ParsedIsRead(x: string)
    requires Parse(x).Some?
    ensures ReadExpr(Trim(x)).Some? && ReadExpr(Trim(x)).value.1 == ""
  {
    hide ReadExpr;
  }

  /** A parenthesis that was not opened. */
  lemma CloseFault(rest: string)
    ensures Parse(")" + rest).None? && ParseFault(")" + rest) == Fault(UnexpectedCloseBrace, |rest|)
  {
    hide ReadExpr, Parse, ParseFault, Blank, Trim;
    FaultOfOne(")" + rest);
  }

  /** Something other than a connective behind a filter. */
  lemma OperatorFault(x: string, c: char, rest: string)
    requires Parse(x).Some? && !IsSpace(c) && c !in ")|&"
    ensures var s := "(" + x + ")" + ([c] + rest); Parse(s).None? && ParseFault(s) == Fault(InvalidOperator, 1 + |rest|)
  {
    hide ReadOne, Parse, ParseFault;
    EnclosedIsRead(x, [c] + rest);
    FaultOfOne("(" + x + ")" + ([c] + rest));
  }

  /** A closing parenthesis behind a filter. */
  lemma JunkFault(x: string, rest: string)
    requires Parse(x).Some?
    ensures var s := "(" + x + ")" + (")" + rest); Parse(s).None? && ParseFault(s) == Fault(JunkAtEnd, |rest|)
  {
    hide ReadOne, Parse, ParseFault;
    EnclosedIsRead(x, ")" + rest);
    FaultOfOne("(" + x + ")" + (")" + rest));
  }

  /** A name and what follows it, which may be the rest of a test. */
  predicate Named(name: string, tail: string)
  { name != "" && AllAlnum(name) && (tail == "" || !IsAlnum(tail[0])) }

  lemma NamedIsTest(name: string, tail: string)
    requires Named(name, tail)
    ensures var s := name + tail;
      && Trimmed(s) && NameLen(s) == |name| && s[..|name|] == name && s[|name|..] == tail
      && ReadOne(s) == match ReadTest(s) { case None => None case Some((t, rest)) => Some((CLeaf(t), rest)) }
      && (ReadTest(s).None? ==> Parse(s).None? && ParseFault(s) == TestFault(s))
  {
    hide ReadTest, TestFault, NameLen, ReadExpr, Parse, ParseFault;
    var s := name + tail;
    Joined(name, tail);
    NameLenSplit(name, tail);
    assert IsAlnum(s[0]);
    FaultOfOne(s);
  }

  const NAMES: set<string> := {"duration", "lastplay", "tag", "artist", "title", "album", "year", "pos"}

  lemma NamesOfFields(name: string)
    requires name != ""
    ensures FieldOf(name).Some? <==> name in NAMES
  {}

  /** A name that is none of the eight, whatever follows it; case does not matter. */
  lemma UnknownFault(name: string, tail: string)
    requires Named(name, tail) && LowerAll(name) !in NAMES
    ensures Parse(name + tail).None? && ParseFault(name + tail) == Fault(UnknownField, |tail|)
  {
    hide Parse, ParseFault, ReadOne, ReadOperand, NameLen, OpLen, OpOf, FieldOf;
    NamedIsTest(name, tail);
    NamesOfFields(LowerAll(name));
  }

  /** A field without an operator. */
  lemma NoOperatorFault(name: string, c: char, rest: string)
    requires Named(name, "") && LowerAll(name) in NAMES && !IsSpace(c) && c !in "=<>~iI"
    ensures Parse(name).None? && ParseFault(name) == Fault(EofInsteadOfOperator, 0)
    ensures var s := name + (" " + ([c] + rest));
      Parse(s).None? && ParseFault(s) == Fault(InvalidValueOperator, 1 + |rest|)
  {
    hide Parse, ParseFault, ReadOne, ReadOperand, NameLen, FieldOf, LowerAll, OpLen, Blank, Trim;
    NamesOfFields(LowerAll(name));
    NamedIsTest(name, "");
    NoOp(c, rest);
    assert name + "" == name;
    var tail := " " + ([c] + rest);
    NamedIsTest(name, tail);
    TrimTrimmed("");
    BlankSplit(" ", [c] + rest);
  }

  lemma NoOp(c: char, rest: string)
    requires c !in "=<>~iI"
    ensures OpLen("") == 0 && OpLen([c] + rest) == 0
  {}

  /** What is wrong with the value behind a field and an equals sign is wrong with the test. */
  lemma BehindEquals(name: string, x: string)
    requires Named(name, "") && LowerAll(name) in NAMES && Trimmed(x) && (x == "" || x[0] != '=')
    ensures ReadValue(x).None? ==> var s := name + (" = " + x); Parse(s).None? && ParseFault(s) == ValueFault(x)
  {
    hide Parse, ParseFault, ReadOne, ReadValue, ValueFault, NameLen, FieldOf, LowerAll, Blank, Trim, OpLen, OpOf;
    NamesOfFields(LowerAll(name));
    var s1, s2, s3 := " = " + x, "=" + (" " + x), " " + x;
    NamedIsTest(name, s1);
    assert s1 == " " + s2;
    BlankSplit(" ", s2);
    BlankSplit(" ", x);
    EqualsIs(s3);
    Joined("=", s3);
  }

  lemma EqualsIs(rest: string)
    requires rest == "" || rest[0] != '='
    ensures OpLen("=" + rest) == 1 && ("=" + rest)[..1] == "=" && OpOf("=") == Eq && Trimmed("=" + rest)
  {}

  /** A value is missing, or is neither a number nor a string. */
  lemma ValueFaults(name: string, c: char, rest: string)
    requires Named(name, "") && LowerAll(name) in NAMES && !IsSpace(c) && !IsDigit(c) && c != '"' && c != '='
    ensures var s := name + (" = " + ""); Parse(s).None? && ParseFault(s) == Fault(ExpectingValue, 0)
    ensures var s := name + (" = " + ([c] + rest)); Parse(s).None? && ParseFault(s) == Fault(InvalidValue, 1 + |rest|)
  {
    hide Parse, ParseFault, LowerAll, Named;
    BehindEquals(name, "");
    BehindEquals(name, [c] + rest);
  }

  lemma {:induction false} PlainBody(body: string, last: string)
    requires '"' !in body && '\\' !in body && (last == "" || last == "\\")
    ensures ReadBody(body + last).None?
    ensures BodyFault(body + last) == Fault(if last == "" then MissingTermination else EofInEscape, 0)
  {
    var s := body + last;
    if body == "" {
      assert s == last;
      assert last == "\\" ==> last[1..] == "";
    } else {
      assert body[0] in body && s[1..] == body[1..] + last && FirstItem(s) == Plain(body[0]);
      PlainBody(body[1..], last);
    }
  }

  /** A string that is not closed, and one that ends in a backslash. */
  lemma StringFaults(name: string, body: string)
    requires Named(name, "") && LowerAll(name) in NAMES && '"' !in body && '\\' !in body
    ensures var s := name + (" = " + ("\"" + body)); Parse(s).None? && ParseFault(s) == Fault(MissingTermination, 0)
    ensures var s := name + (" = " + ("\"" + (body + "\\"))); Parse(s).None? && ParseFault(s) == Fault(EofInEscape, 0)
  {
    hide Parse, ParseFault, LowerAll, Named, ReadBody, BodyFault;
    PlainBody(body, "");
    PlainBody(body, "\\");
    assert body + "" == body;
    var x, y := "\"" + body, "\"" + (body + "\\");
    assert x[1..] == body && y[1..] == body + "\\";
    BehindEquals(name, x);
    BehindEquals(name, y);
  }

  /** A number where a field takes none. */
  lemma MatchFault(name: string, n: int)
    requires Named(name, "") && LowerAll(name) == "title" && 0 <= n
    ensures var s := name + (" = " + Dec(n)); Parse(s).None? && ParseFault(s) == Fault(InvalidMatch, 0)
  {
    hide Parse, ParseFault, ReadOne, NameLen, LowerAll, Blank, Trim, OpLen, OpOf, Dec, ReadValue, NumValue, Allowed;
    var x := Dec(n);
    var s1, s2, s3 := " = " + x, "=" + (" " + x), " " + x;
    NamedIsTest(name, s1);
    assert s1 == " " + s2;
    NumberIsRead(n);
    BlankSplit(" ", s2);
    BlankSplit(" ", x);
    EqualsIs(s3);
    Joined("=", s3);
    AllowedMeans(TestType(Title, Eq, NumType));
  }

  lemma NumberIsRead(n: int)
    requires 0 <= n
    ensures Trimmed(Dec(n)) && Dec(n)[0] != '=' && ReadValue(Dec(n)) == Some((CNum(Dec(n)), ""))
  {
    hide Digits, DigitsValue;
    DigitsRoundTrip(n);
    var t := Digits(n);
    assert NumText(t) && t + "" == t;
    ValueComplete(CNum(t), "");
  }
}
