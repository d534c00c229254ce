/**
 The hand-written parser: every method reads from a shared cursor and is proved to do what the
 grammar's reading functions say, to terminate, and never to move the commit point backward.
 */
module Parser {
  import opened Text
  import opened Filter
  import opened Grammar
  import GrammarProofs
  import opened Cursor
  import opened Faults

  /** Only the first message is kept. */
  function Kept(msg: Option<Message>, why: Message): Option<Message> { if msg.Some? then msg else Some(why) }

  /** Reading a number from s has consumed t and the blanks w, with tail ahead. */
  ghost predicate Reading(s: string, t: string, w: string, tail: string, num: int)
  {
    s == t + w + tail && NumText(t) && AllSpace(w) && Trimmed(tail) && num == NumValue(t)
  }

  lemma NumBegin(s: string)
    requires Trimmed(s)
    ensures Reading(s, "", "", s, 0)
  {
    assert "" + "" + s == s;
  }

  lemma Beyond(text: string, i: nat, tail: string)
    requires i < |text| && text[i..] == tail
    ensures text[i + 1..] == tail[1..]
  {}

  lemma NumTextBlank(t: string, w: string)
    requires NumText(t) && AllSpace(w)
    ensures NumText(t + w)
  {}

  lemma NumValueMore(t: string, c: char)
    requires NumText(t) && IsDigit(c)
    ensures NumText(t + [c]) && NumValue(t + [c]) == Wrap32(Wrap32(NumValue(t) * 10) + DigitValue(c))
  {
    assert (t + [c])[..|t|] == t;
  }

  lemma NumDigit(s: string, t: string, w: string, tail: string, num: int)
    returns (t': string, w': string)
    requires Reading(s, t, w, tail, num) && tail != "" && IsDigit(tail[0])
    ensures Reading(s, t', w', Trim(tail[1..]), Wrap32(Wrap32(num * 10) + DigitValue(tail[0])))
  {
    hide Blank, NumValue, NumText, Wrap32, DigitValue, IsDigit;
    var r := tail[1..];
    t', w' := t + w + [tail[0]], r[..Blank(r)];
    NumValueBlank(t, w);
    NumTextBlank(t, w);
    NumValueMore(t + w, tail[0]);
    Split(tail, 1);
    Split(r, Blank(r));
    Cat4(t + w, [tail[0]], w', Trim(r));
  }

  lemma NumEnd(s: string, t: string, w: string, tail: string, num: int)
    requires Reading(s, t, w, tail, num) && (tail == "" || !IsDigit(tail[0]))
    ensures num == NumValue(s[..NumLen(s)]) && tail == s[NumLen(s)..]
  {
    NumValueBlank(t, w);
    NumExtent(t + w, tail);
    Joined(t + w, tail);
  }

  /** Reading a name from s has consumed its first i characters. */
  ghost predicate Naming(s: string, i: nat, name: string)
  { i <= |s| && name == LowerAll(s[..i]) && NameLen(s) == i + NameLen(s[i..]) }

  lemma NameBegin(s: string)
    ensures Naming(s, 0, "")
  {
    assert s[0..] == s;
  }

  lemma LowerMore(s: string, i: nat)
    requires i < |s|
    ensures LowerAll(s[..i + 1]) == LowerAll(s[..i]) + [Lower(s[i])]
  {}

  lemma NameLenStep(s: string)
    ensures NameLen(s) == if s != "" && IsAlnum(s[0]) then 1 + NameLen(s[1..]) else 0
  {}

  /** One more letter of a name, or none. */
  lemma NameStep(s: string, i: nat, name: string)
    requires Naming(s, i, name)
    ensures i <= |s|
    ensures i < |s| && IsAlnum(s[i]) ==> Naming(s, i + 1, name + [Lower(s[i])]) && s[i..][1..] == s[i + 1..]
    ensures i == |s| || !IsAlnum(s[i]) ==> name == LowerAll(s[..NameLen(s)]) && i == NameLen(s)
  {
    hide LowerAll, Lower, NameLen, IsAlnum;
    NameLenStep(s[i..]);
    if i < |s| {
      assert s[i..][0] == s[i] && s[i..][1..] == s[i + 1..];
      LowerMore(s, i);
    }
  }

  /** One more character of a string body. */
  lemma BodyStep(s: string, n: nat, c: char)
    requires s != "" && s[0] != '"'
    requires if s[0] == '\\' && |s| > 1 && (s[1] == '\\' || s[1] == '"') then n == 2 && c == s[1]
             else n == 1 && c == s[0]
    ensures ReadBody(s).Some? <==> ReadBody(s[n..]).Some?
    ensures ReadBody(s).Some? ==>
      ReadBody(s).value.1 == ReadBody(s[n..]).value.1
      && BodyString(ReadBody(s).value.0) == [Lower(c)] + BodyString(ReadBody(s[n..]).value.0)
  {
    if ReadBody(s).Some? {
      assert ReadBody(s).value.0[1..] == ReadBody(s[n..]).value.0;
    }
  }

  /** A string body s0 that is not closed has been read up to s; at its end the message depends on how it ends. */
  ghost predicate Unclosed(s0: string, s: string, msg0: Option<Message>, msg: Option<Message>)
  {
    && ReadBody(s0).None? && ReadBody(s).None?
    && if BodyFault(s0) == Fault(EofInEscape, 0) && s == "" then msg == Kept(msg0, EofInEscape)
       else BodyFault(s0) == BodyFault(s) && msg == msg0
  }

  lemma UnclosedBegin(s: string, msg: Option<Message>)
    requires ReadBody(s).None?
    ensures Unclosed(s, s, msg, msg)
  {}

  lemma UnclosedStep(s0: string, s: string, n: nat, msg0: Option<Message>, msg: Option<Message>)
    requires Unclosed(s0, s, msg0, msg) && s != "" && s[0] != '"' && n == |ItemText(FirstItem(s))|
    ensures Unclosed(s0, s[n..], msg0, if s == "\\" then Kept(msg, EofInEscape) else msg)
  {}

  lemma BodyEnd(s: string)
    requires s == "" || s[0] == '"'
    ensures if s == "" then ReadBody(s) == None else ReadBody(s) == Some(([], s[1..]))
    ensures BodyString([]) == ""
  {}

  /** The operand being read starts with the values vs; s is ahead and continues it. */
  ghost predicate Listing(operand: Option<(COperand, string)>, vs: seq<Value>, s: string)
  {
    match (if Trimmed(s) then ReadItems(s) else None)
    case None => operand.None?
    case Some((more, rest)) =>
      operand.Some? && operand.value.1 == rest && OperandOf(operand.value.0) == List(vs + ItemsOf(more))
  }

  lemma ListBegin(s: string)
    requires ReadValue(s).Some?
    ensures Listing(ReadOperand(true, s), [ValueOf(ReadValue(s).value.0)], ReadValue(s).value.1)
  {}

  /** A comma calls for another value, and the list goes on behind it. */
  lemma ListItem(operand: Option<(COperand, string)>, vs: seq<Value>, s: string)
    requires Listing(operand, vs, s) && Trimmed(s) && s != "" && s[0] == ','
    ensures match ReadValue(Trim(s[1..]))
      case None => operand.None?
      case Some((v, rest)) => Listing(operand, vs + [ValueOf(v)], rest)
  {
    hide ReadValue, Blank;
    match ReadValue(Trim(s[1..]))
    case None =>
    case Some((v, rest)) =>
      if ReadItems(s).Some? {
        var more := ReadItems(s).value.0;
        assert ItemsOf(more) == [ValueOf(v)] + ItemsOf(ReadItems(rest).value.0);
        assert vs + ItemsOf(more) == vs + [ValueOf(v)] + ItemsOf(ReadItems(rest).value.0);
      }
  }

  /** If the list that starts with s0 cannot be read, that is because of what is wrong with the rest s of it. */
  ghost predicate Doomed(s0: string, s: string)
  {
    ReadOperand(true, s0).None? ==> Trimmed(s) && ReadItems(s).None? && OperandFault(true, s0) == ItemsFault(s)
  }

  lemma DoomedBegin(s: string)
    ensures match ReadValue(s)
      case None => ReadOperand(true, s).None? && OperandFault(true, s) == ValueFault(s)
      case Some((_, rest)) => Doomed(s, rest)
  {
    hide ReadValue, ReadItems, ValueFault;
  }

  lemma DoomedMore(s0: string, s: string)
    requires Doomed(s0, s) && Trimmed(s) && s != "" && s[0] == ','
    ensures match ReadValue(Trim(s[1..]))
      case None => ReadOperand(true, s0).None? ==> OperandFault(true, s0) == ValueFault(Trim(s[1..]))
      case Some((_, rest)) => Doomed(s0, rest)
  {
    hide ReadValue, Blank, ReadOperand, OperandFault, ValueFault;
  }

  lemma ListEnd(operand: Option<(COperand, string)>, vs: seq<Value>, s: string)
    requires Listing(operand, vs, s) && Trimmed(s) && (s == "" || s[0] != ',')
    ensures operand.Some? && operand.value.1 == s && OperandOf(operand.value.0) == List(vs)
  {
    assert ItemsOf([]) == [] && vs + [] == vs;
  }

  lemma ScalarOperand(s: string)
    ensures match ReadValue(s)
      case None => ReadOperand(false, s) == None && OperandFault(false, s) == ValueFault(s)
      case Some((v, rest)) => ReadOperand(false, s) == Some((Scalar(v), rest)) && OperandOf(Scalar(v)) == ValueOf(v)
  {}

  /** What is read of a test, given the field, the operator and what the operand is read as. */
  function TestFrom(f: Option<Field>, op: ValOp, val: Option<(Value, string)>): Option<(Test, string)>
  {
    if f == None || op == NoOp || val == None then None
    else if !Allowed(TestType(f.value, op, TypeOf(val.value.0))) then None
    else Some((Test(f.value, op, val.value.0), val.value.1))
  }

  function ValueFrom(v: Option<(COperand, string)>): Option<(Value, string)>
  { match v { case None => None case Some((x, rest)) => Some((OperandOf(x), rest)) } }

  function TestRead(s: string): Option<(Test, string)>
  { match ReadTest(s) { case None => None case Some((t, rest)) => Some((TestOf(t), rest)) } }

  lemma TestReads(s: string)
    ensures
      var s2 := Trim(s[NameLen(s)..]);
      var op := if OpLen(s2) == 0 then NoOp else OpOf(s2[..OpLen(s2)]);
      TestRead(s) == TestFrom(FieldOf(LowerAll(s[..NameLen(s)])), op,
                              ValueFrom(ReadOperand(op == In, Trim(s2[OpLen(s2)..]))))
  {
    hide Blank, Trim, NameLen, OpLen, OpOf, FieldOf, LowerAll, ReadOperand, OperandOf, Allowed;
    GrammarProofs.OpSound(Trim(s[NameLen(s)..]));
  }

  lemma TestFaults(s: string)
    requires ReadTest(s).None?
    ensures
      var s1 := s[NameLen(s)..];
      var s2 := Trim(s1);
      var list, s3 := OpOf(s2[..OpLen(s2)]) == In, Trim(s2[OpLen(s2)..]);
      if FieldOf(LowerAll(s[..NameLen(s)])).None? then TestFault(s) == Fault(UnknownField, |s1|)
      else if OpLen(s2) == 0 then TestFault(s) == OpFault(s2)
      else match ReadOperand(list, s3)
        case None => TestFault(s) == OperandFault(list, s3)
        case Some((v, rest)) => TestFault(s) == Fault(InvalidMatch, if v.Scalar? then Unread(v.val, rest) else |rest|)
  {
    hide Blank, Trim, NameLen, OpLen, OpOf, FieldOf, LowerAll, ReadOperand, ReadTest, OpFault, OperandFault;
  }

  /** Which operator a text starts with. */
  lemma OpFacts(s: string)
    ensures s == "" ==> OpLen(s) == 0
    ensures s != "" && s[0] !in "=<>~iI" ==> OpLen(s) == 0
    ensures s != "" && s[0] == '=' ==> OpLen(s) == 1 && OpOf(s[..1]) == Eq
    ensures s != "" && s[0] == '~' ==> OpLen(s) == 1 && OpOf(s[..1]) == Re
    ensures |s| > 1 && s[0] in "<>" && s[1] == '=' ==> OpLen(s) == 2 && OpOf(s[..2]) == if s[0] == '>' then Ge else Le
    ensures s != "" && s[0] in "<>" && (|s| == 1 || s[1] != '=') ==>
      OpLen(s) == 1 && OpOf(s[..1]) == if s[0] == '>' then Gt else Lt
    ensures |s| > 1 && s[0] in "iI" && s[1] in "nN" ==> OpLen(s) == 2 && OpOf(s[..2]) == In
    ensures s != "" && s[0] in "iI" && (|s| == 1 || s[1] !in "nN") ==> OpLen(s) == 0
  {
    if |s| > 1 { assert s[..2] == [s[0], s[1]]; }
    if s != "" { assert s[..1] == [s[0]]; }
  }

  lemma EveryField(f: Option<Field>)
    ensures f.None? || exists j :: 0 <= j < |FIELDS| && FIELDS[j] == f.value
  {
    assert FIELDS[0] == NoField && FIELDS[1] == Duration && FIELDS[2] == LastPlay && FIELDS[3] == Tag
        && FIELDS[4] == Artist && FIELDS[5] == Title && FIELDS[6] == Album && FIELDS[7] == Year && FIELDS[8] == Pos;
  }

  class FilterParser {
    const input: StringInput
    var msg: Option<Message>

    constructor (input: StringInput)
      ensures this.input == input && msg == None
    {
      this.input := input;
      msg := None;
    }

    /** The cursor is in order and has not moved back behind a given position and commit point. */
    ghost predicate Forward(cur: nat, done: nat)
      reads this, input
    { input.Valid() && cur <= input.cur && done <= input.done }

    /** The unread text without leading whitespace. */
    ghost function Ahead(): (s: string)
      requires input.Valid()
      reads this, input
      ensures Trimmed(s)
    { Trim(input.Rest()) }

    /** The character c is read and tail is what the commit point is in front of. */
    ghost predicate Facing(c: Option<char>, tail: string)
      reads this, input
    {
      && input.Valid() && input.text[input.done..] == tail
      && if tail == "" then c == None && input.cur == input.done else c == Some(tail[0]) && input.cur == input.done + 1
    }

    lemma FacingMeans(c: Option<char>, tail: string)
      requires Facing(c, tail)
      ensures c == if tail == "" then None else Some(tail[0])
    {}

    /** The message is kept, unless there was one before, and this much is unread. */
    ghost predicate Fails(fault: Fault, before: Option<Message>)
      reads this, input
    { input.Valid() && msg == Kept(before, fault.why) && |input.Rest()| == fault.left }

    method Error(m: Message)
      modifies this`msg
      ensures msg == Kept(old(msg), m)
    {
      if msg.None? { msg := Some(m); }
    }

    /** Commits up to the next visible character and reads it. */
    method Nonspace() returns (c: Option<char>)
      requires input.Valid()
      modifies input
      ensures Forward(old(input.cur), old(input.done)) && old(input.cur) <= input.done
      ensures Facing(c, old(Ahead()))
    {
      ghost var ahead := Ahead();
      input.Done();
      c := input.Next();
      while c.Some? && IsSpace(c.value)
        invariant Forward(old(input.cur), old(input.done)) && old(input.cur) <= input.done
        invariant Trim(input.text[input.done..]) == ahead
        invariant if input.done == |input.text| then c == None && input.cur == input.done
                  else c == Some(input.text[input.done]) && input.cur == input.done + 1
        decreases |input.text| - input.done
      {
        assert input.text[input.done..][1..] == input.text[input.cur..];
        TrimSkip(input.text[input.done..], 1);
        input.Done();
        c := input.Next();
      }
      TrimTrimmed(input.text[input.done..]);
    }

    // ----- names, numbers and strings -----

    method FilterName() returns (c: Option<char>)
      requires input.Valid() && input.done == input.cur
      modifies input
      ensures input.Valid() && input.done == input.cur
      ensures var s := old(input.Rest());
        if s != "" && IsAlnum(s[0]) then c == Some(s[0]) && input.cur == old(input.cur) + 1
        else c == None && input.cur == old(input.cur)
    {
      c := input.Next();
      if c == None {
        input.Done();
      } else if IsAlnum(c.value) {
        input.Done();
      } else {
        input.Undo();
        c := None;
      }
    }

    method ParseName() returns (name: string)
      requires input.Valid()
      modifies input
      ensures Forward(old(input.cur), old(input.done))
      ensures var s := old(Ahead()); name == LowerAll(s[..NameLen(s)]) && input.Rest() == s[NameLen(s)..]
    {
      hide NameLen, Blank, LowerAll, Trim, Naming;
      ghost var s := Ahead();
      var _ := Nonspace();
      input.Undo();
      name := "";
      ghost var i := 0;
      NameBegin(s);
      assert s[0..] == s;
      while true
        invariant Forward(old(input.cur), old(input.done)) && input.done == input.cur
        invariant i <= |s| && input.Rest() == s[i..] && Naming(s, i, name)
        decreases |s| - i
      {
        NameStep(s, i, name);
        var c := FilterName();
        if c == None { break; }
        name := name + [Lower(c.value)];
        i := i + 1;
      }
    }

    /** Returns to the commit point, in front of tail. */
    method Retreat(ghost c: Option<char>, ghost tail: string)
      requires Facing(c, tail)
      modifies input
      ensures Forward(old(input.done), old(input.done)) && input.Rest() == tail && input.done == old(input.done)
    {
      input.Undo();
    }

    /** Commits to a character and goes on to the next visible one. */
    method Onward(ghost c: char, ghost tail: string) returns (next: Option<char>)
      requires Facing(Some(c), tail) && tail != ""
      modifies input
      ensures Forward(old(input.cur), old(input.done)) && old(input.cur) <= input.done && old(input.done) < input.done
      ensures Facing(next, Trim(tail[1..]))
    {
      hide Trim;
      Beyond(input.text, input.done, tail);
      input.Done();
      next := Nonspace();
    }

    method ParseNum() returns (num: int)
      requires input.Valid()
      modifies input
      ensures Forward(old(input.cur), old(input.done))
      ensures var s := old(Ahead()); num == NumValue(s[..NumLen(s)]) && input.Rest() == s[NumLen(s)..]
    {
      hide Reading, NumLen, NumValue, Blank, Trim, Wrap32, IsDigit, DigitValue, Facing, Ahead;
      ghost var s := Ahead();
      ghost var t, w, tail := "", "", s;
      NumBegin(s);
      num := 0;
      var c := Nonspace();
      while c.Some? && IsDigit(c.value)
        invariant Forward(old(input.cur), old(input.done)) && old(input.cur) <= input.done
        invariant Reading(s, t, w, tail, num) && Facing(c, tail)
        decreases |input.text| - input.done
      {
        FacingMeans(c, tail);
        t, w := NumDigit(s, t, w, tail, num);
        num := Wrap32(num * 10);
        num := Wrap32(num + DigitValue(c.value));
        c := Onward(c.value, tail);
        tail := Trim(tail[1..]);
      }
      FacingMeans(c, tail);
      NumEnd(s, t, w, tail, num);
      Retreat(c, tail);
    }

    method FilterString() returns (c: Option<char>)
      requires input.Valid() && input.done == input.cur
      modifies this`msg, input
      ensures input.Valid() && input.done == input.cur
      ensures var s := old(input.Rest());
        if s == "" || s[0] == '"' then c == None && input.cur == old(input.cur)
        else if s[0] == '\\' && |s| > 1 && (s[1] == '\\' || s[1] == '"') then
          c == Some(s[1]) && input.cur == old(input.cur) + 2
        else c == Some(s[0]) && input.cur == old(input.cur) + 1
      ensures msg == if old(input.Rest()) == "\\" then Kept(old(msg), EofInEscape) else old(msg)
    {
      c := input.Next();
      if c == Some('\\') {
        input.Done();
        var e := input.Next();
        if e == Some('\\') || e == Some('"') {
          input.Done();
          return e;
        } else if e == None {
          Error(EofInEscape);
          input.Done();
          return c;
        }
        input.Undo();
        return c;
      } else if c == Some('"') {
        input.Undo();
        return None;
      } else {
        input.Done();
      }
    }

    /** Reads a string body up to, but not including, the closing quote. */
    method StringChars() returns (str: string)
      requires input.Valid() && input.done == input.cur
      modifies this`msg, input
      ensures Forward(old(input.cur), old(input.done))
      ensures match ReadBody(old(input.Rest()))
        case Some((items, rest)) => str == BodyString(items) && input.Rest() == "\"" + rest && msg == old(msg)
        case None => input.Rest() == "" && Unclosed(old(input.Rest()), "", old(msg), msg)
    {
      hide ReadBody, BodyString, Unclosed;
      ghost var body, s0 := ReadBody(input.Rest()), input.Rest();
      if body.None? { UnclosedBegin(s0, msg); }
      str := "";
      while true
        invariant Forward(old(input.cur), old(input.done)) && input.done == input.cur
        invariant match ReadBody(input.Rest())
          case Some((items, rest)) =>
            body.Some? && body.value.1 == rest && BodyString(body.value.0) == str + BodyString(items) && msg == old(msg)
          case None => body.None? && Unclosed(s0, input.Rest(), old(msg), msg)
        decreases |input.text| - input.cur
      {
        ghost var s, m := input.Rest(), msg;
        var c := FilterString();
        if c == None {
          BodyEnd(s);
          break;
        }
        ghost var n := input.cur - (|input.text| - |s|);
        BodyStep(s, n, c.value);
        if body.None? { UnclosedStep(s0, s, n, old(msg), m); }
        assert input.Rest() == s[n..];
        str := str + [Lower(c.value)];
      }
    }

    method ParseString() returns (r: Option<string>)
      requires input.Valid()
      modifies this`msg, input
      ensures Forward(old(input.cur), old(input.done))
      ensures var s := old(Ahead());
        if s == "" || s[0] != '"' then r == None
        else match ReadBody(s[1..])
          case Some((items, rest)) => r == Some(BodyString(items)) && input.Rest() == rest && msg == old(msg)
          case None => r == None && Fails(BodyFault(s[1..]), old(msg))
    {
      hide ReadBody, BodyString, Blank, Trim;
      var c := Nonspace();
      if c == None {
        input.Done();
        return None;
      }
      if c != Some('"') {
        input.Undo();
        return None;
      }
      assert input.text[input.done..][1..] == input.text[input.cur..];
      input.Done();
      var str := StringChars();
      ghost var s := input.Rest();
      c := input.Next();
      assert s != "" ==> input.Rest() == s[1..];
      if c != Some('"') {
        Error(MissingTermination);
        return None;
      }
      r := Some(str);
    }

    // ----- values -----

    method ParseValue() returns (r: Option<Value>)
      requires input.Valid()
      modifies this`msg, input
      ensures Forward(old(input.cur), old(input.done))
      ensures match ReadValue(old(Ahead()))
        case Some((v, rest)) =>
          r == Some(ValueOf(v)) && Ahead() == rest && |input.Rest()| == Unread(v, rest) && msg == old(msg)
        case None => r == None && Fails(ValueFault(old(Ahead())), old(msg))
    {
      hide Blank, ReadBody, BodyString, NumLen, NumValue;
      ghost var s := Ahead();
      var c := Nonspace();
      input.Undo();
      TrimTrimmed(s);
      if c == None {
        Error(ExpectingValue);
        return None;
      }
      if c == Some('"') {
        var str := ParseString();
        if str == None { return None; }
        r := Some(Str(str.value));
      } else if IsDigit(c.value) {
        var num := ParseNum();
        TrimTrimmed(input.Rest());
        r := Some(Num(num));
      } else {
        Error(InvalidValue);
        return None;
      }
    }

    method ParseValList() returns (r: Option<Value>)
      requires input.Valid()
      modifies this`msg, input
      ensures Forward(old(input.cur), old(input.done))
      ensures match ReadOperand(true, old(Ahead()))
        case Some((v, rest)) => r == Some(OperandOf(v)) && Ahead() == input.Rest() == rest && msg == old(msg)
        case None => r == None && Fails(OperandFault(true, old(Ahead())), old(msg))
    {
      hide Blank, Trim, ReadValue, ReadItems, ReadOperand, OperandFault, ValueFault, Doomed;
      ghost var s, s0 := Ahead(), Ahead();
      ghost var operand := ReadOperand(true, s);
      DoomedBegin(s);
      var first := ParseValue();
      if first == None {
        Error(MissingValue);
        return None;
      }
      var vs := [first.value];
      ListBegin(s);
      var c := Nonspace();
      s := input.text[input.done..];
      while c == Some(',')
        invariant Forward(old(input.cur), old(input.done)) && old(input.cur) <= input.done
        invariant Listing(operand, vs, s) && s == input.text[input.done..] && Trimmed(s) && msg == old(msg)
        invariant Doomed(s0, s)
        invariant if s == "" then c == None && input.cur == input.done
                  else c == Some(s[0]) && input.cur == input.done + 1
        decreases |s|
      {
        ListItem(operand, vs, s);
        DoomedMore(s0, s);
        assert input.Rest() == s[1..];
        var v := ParseValue();
        if v == None {
          Error(MissingValue);
          return None;
        }
        vs := vs + [v.value];
        c := Nonspace();
        s := input.text[input.done..];
      }
      ListEnd(operand, vs, s);
      input.Undo();
      TrimTrimmed(s);
      r := Some(List(vs));
    }

    // ----- tests -----

    method ParseValOp() returns (op: ValOp)
      requires input.Valid()
      modifies this`msg, input
      ensures Forward(old(input.cur), old(input.done))
      ensures var s := old(Ahead());
        if OpLen(s) == 0 then
          && op == NoOp && |input.Rest()| == OpFault(s).left
          && Kept(msg, InvalidValueOperator) == Kept(old(msg), OpFault(s).why)
        else op == OpOf(s[..OpLen(s)]) != NoOp && input.Rest() == s[OpLen(s)..] && msg == old(msg)
    {
      hide Blank, Trim, OpLen, OpOf;
      ghost var s := Ahead();
      OpFacts(s);
      var c := Nonspace();
      assert input.Rest() == if s == "" then "" else s[1..];
      match c {
        case Some(ch) =>
          if ch == '=' {
            input.Done();
            return Eq;
          } else if ch == '>' || ch == '<' {
            input.Done();
            var n := input.Next();
            if n == Some('=') {
              input.Done();
              return if ch == '>' then Ge else Le;
            }
            input.Undo();
            return if ch == '>' then Gt else Lt;
          } else if ch == '~' {
            input.Done();
            return Re;
          } else if ch == 'i' || ch == 'I' {
            var n := input.Next();
            if n == Some('n') || n == Some('N') {
              input.Done();
              return In;
            }
            input.Done();
            Error(EofInsteadOfOperator);
            return NoOp;
          }
        case None =>
          input.Done();
          Error(EofInsteadOfOperator);
          return NoOp;
      }
      input.Undo();
      op := NoOp;
    }

    /** Looks a name up among the field names. */
    static method FindField(name: string) returns (f: Option<Field>)
      ensures f == FieldOf(name)
    {
      var i := 0;
      while i < |FIELDS|
        invariant 0 <= i <= |FIELDS|
        invariant forall j :: 0 <= j < i ==> FieldName(FIELDS[j]) != name
      {
        if FieldName(FIELDS[i]) == name {
          FieldOfName(FIELDS[i]);
          return Some(FIELDS[i]);
        }
        i := i + 1;
      }
      EveryField(FieldOf(name));
      f := None;
    }

    /** Looks a test up in the table of allowed tests. */
    static method FindTestType(t: TestType) returns (valid: bool)
      ensures valid == Allowed(t)
    {
      valid := false;
      for i := 0 to |TEST_TYPES|
        invariant t !in TEST_TYPES[..i]
      {
        if TEST_TYPES[i] == t { return true; }
      }
    }

    /** A list behind IN, one value behind any other operator. */
    method ParseOperand(op: ValOp) returns (val: Option<Value>)
      requires input.Valid() && op != NoOp
      modifies this`msg, input
      ensures Forward(old(input.cur), old(input.done))
      ensures match ReadOperand(op == In, old(Ahead()))
        case Some((v, rest)) =>
          && val == Some(OperandOf(v)) && Ahead() == rest && msg == old(msg)
          && |input.Rest()| == if v.Scalar? then Unread(v.val, rest) else |rest|
        case None => val == None && Fails(OperandFault(op == In, old(Ahead())), old(msg))
    {
      hide Blank, Trim, ReadValue, ReadItems, OperandFault, ValueFault;
      if op == In {
        val := ParseValList();
      } else {
        ScalarOperand(Ahead());
        val := ParseValue();
      }
    }

    method ParseValTest() returns (r: Option<Test>)
      requires input.Valid()
      modifies this`msg, input
      ensures Forward(old(input.cur), old(input.done))
      ensures match ReadTest(old(Ahead()))
        case Some((t, rest)) => r == Some(TestOf(t)) && Ahead() == rest && msg == old(msg)
        case None => r == None && Fails(TestFault(old(Ahead())), old(msg))
    {
      hide Blank, Trim, NameLen, OpLen, OpOf, FieldOf, LowerAll, ReadOperand, OperandOf, Allowed, ReadTest, TestOf;
      hide TestFault, OpFault, OperandFault, ValueFault;
      TestReads(Ahead());
      if ReadTest(Ahead()).None? { TestFaults(Ahead()); }
      var name := ParseName();
      var field := FindField(name);
      if field == None {
        Error(UnknownField);
        return None;
      }
      var op := ParseValOp();
      if op == NoOp {
        Error(InvalidValueOperator);
        return None;
      }
      var val := ParseOperand(op);
      if val == None {
        Error(NoValue);
        return None;
      }
      var valid := FindTestType(TestType(field.value, op, TypeOf(val.value)));
      if !valid {
        Error(InvalidMatch);
        return None;
      }
      r := Some(Test(field.value, op, val.value));
    }

    // ----- expressions -----

    method ParseExprVal() returns (r: Option<Expr>)
      requires input.Valid()
      modifies this`msg, input
      ensures Forward(old(input.cur), old(input.done))
      ensures match ReadTest(old(Ahead()))
        case Some((t, rest)) => r == Some(Self(TestOf(t))) && Ahead() == rest && msg == old(msg)
        case None => r == None && Fails(TestFault(old(Ahead())), old(msg))
    {
      var t := ParseValTest();
      if t == None { return None; }
      r := Some(Self(t.value));
    }

    method ParseExprNot() returns (r: Option<Expr>)
      requires input.Valid()
      modifies this`msg, input
      ensures Forward(old(input.cur), old(input.done))
      ensures match ReadOne(old(Ahead()))
        case Some((t, rest)) => r == Some(Not(OneOf(t))) && Ahead() == rest && msg == old(msg)
        case None => r == None && Fails(OneFault(old(Ahead())), old(msg))
      decreases |input.text| - input.cur, 1
    {
      var e := ParseOneExpr();
      if e == None {
        Error(ExpectingExpression);
        return None;
      }
      r := Some(Not(e.value));
    }

    method ParseOneExpr() returns (r: Option<Expr>)
      requires input.Valid()
      modifies this`msg, input
      ensures Forward(old(input.cur), old(input.done))
      ensures match ReadOne(old(Ahead()))
        case Some((t, rest)) => r == Some(OneOf(t)) && Ahead() == rest && msg == old(msg)
        case None => r == None && Fails(OneFault(old(Ahead())), old(msg))
      decreases |input.text| - input.cur, 0
    {
      hide Blank, Trim, ReadExpr, ExprOf, ReadTest, TestOf;
      ghost var s := Ahead();
      var c := Nonspace();
      assert input.Rest() == if s == "" then "" else s[1..];
      if c == Some('(') {
        input.Done();
        r := ParseExpr();
        if r == None {
          Error(ExpectingExpression);
          return;
        }
        TrimTrimmed(Ahead());
        c := Nonspace();
        if c != Some(')') {
          Error(MissingCloseBrace);
          return None;
        }
        assert input.Rest() == input.text[input.done..][1..];
        input.Done();
        return;
      } else if c == Some(')') {
        Error(UnexpectedCloseBrace);
        input.Done();
        return None;
      } else if c == Some('!') {
        input.Done();
        r := ParseExprNot();
        return;
      }
      input.Undo();
      TrimTrimmed(s);
      r := ParseExprVal();
    }

    /** The connective ahead: Some(true) is |, Some(false) is &. */
    method ParseOperator() returns (or: Option<bool>)
      requires input.Valid()
      modifies input
      ensures Forward(old(input.cur), old(input.done))
      ensures var s := old(Ahead());
        if s != "" && (s[0] == '|' || s[0] == '&') then or == Some(s[0] == '|') && input.Rest() == s[1..]
        else or == None && input.Rest() == s
    {
      hide Blank, Trim;
      ghost var s := Ahead();
      var c := Nonspace();
      if c == Some('|') {
        assert input.Rest() == s[1..];
        input.Done();
        return Some(true);
      } else if c == Some('&') {
        assert input.Rest() == s[1..];
        input.Done();
        return Some(false);
      } else if c == None {
        input.Done();
        return None;
      }
      input.Undo();
      or := None;
    }

    method ParseExpr() returns (r: Option<Expr>)
      requires input.Valid()
      modifies this`msg, input
      ensures Forward(old(input.cur), old(input.done))
      ensures match ReadExpr(old(Ahead()))
        case Some((t, rest)) => r == Some(ExprOf(t)) && Ahead() == rest && msg == old(msg)
        case None => r == None && Fails(ExprFault(old(Ahead())), old(msg))
      decreases |input.text| - input.cur, 2
    {
      hide Blank, Trim, ReadOne, OneOf;
      var a := ParseOneExpr();
      if a == None { return None; }
      ghost var s := Ahead();
      TrimTrimmed(s);
      var c := Nonspace();
      if c == Some(')') {
        input.Undo();
        return a;
      }
      input.Undo();
      var or := ParseOperator();
      if or == None {
        var eof := input.Eof();
        if !eof {
          Error(InvalidOperator);
          return None;
        }
        return a;
      }
      var b := ParseOneExpr();
      if b == None {
        Error(ExpectingSecondExpression);
        return None;
      }
      r := Some(if or.value then Or(a.value, b.value) else And(a.value, b.value));
    }

    /** A whole input is one filter; on failure there is a message and a column within the input. */
    method ExprParse() returns (e: Option<Expr>, col: int, why: Option<Message>)
      requires input.Valid() && input.cur == 0 && msg == None
      modifies this`msg, input
      ensures e == Parse(input.text)
      ensures if e.Some? then col == -1 && why == None
        else var fault := ParseFault(input.text); why == Some(fault.why) && col == |input.text| - fault.left
    {
      hide Blank, ReadExpr, ExprOf;
      assert input.Rest() == input.text;
      e := ParseExpr();
      if e.Some? {
        var c := Nonspace();
        if c.Some? {
          e := None;
          msg := Some(JunkAtEnd);
        }
      }
      col, why := -1, None;
      if e == None {
        col := input.Col();
        why := msg;
      }
    }
  }

  method ExprParseStr(text: string) returns (e: Option<Expr>, col: int, why: Option<Message>)
    ensures e == Parse(text)
    ensures if e.Some? then col == -1 && why == None
      else var fault := ParseFault(text); why == Some(fault.why) && col == |text| - fault.left
  {
    var input := new StringInput(text);
    var parser := new FilterParser(input);
    e, col, why := parser.ExprParse();
  }
}
