/** The reading functions accept exactly the grammar, and no text has two trees. */
module GrammarProofs {
  import opened Text
  import opened Filter
  import opened Grammar

  // ----- soundness: what is read is a well-formed tree with exactly the consumed text -----

  /** One item of a string body, and the rest of it. */
  lemma BodySplit(s: string)
    requires s != "" && s[0] != '"'
    ensures var it := FirstItem(s);
      var n := |ItemText(it)|;
      && n <= |s| && s[..n] == ItemText(it) && ItemOk(it)
      && ReadBody(s) == match ReadBody(s[n..])
        case None => None
        case Some((items, rest)) => Some(([it] + items, rest))
  {}

  lemma BodyEmpty(s: string)
    requires s == "" || s[0] == '"'
    ensures ReadBody(s) == (if s == "" then None else Some(([], s[1..])))
    ensures BodyOk([]) && BodyText([]) == ""
  {}

  lemma BodyCons(it: StrItem, items: seq<StrItem>)
    ensures BodyText([it] + items) == ItemText(it) + BodyText(items)
    ensures BodyOk([it] + items) <==>
      ItemOk(it) && (it.Lone? ==> items != [] && items[0].Plain?) && BodyOk(items)
  {
    var all := [it] + items;
    assert all[0] == it && all[1..] == items;
  }

  /** A backslash that escapes nothing is followed by a plain character. */
  lemma LoneIsFollowed(s: string)
    requires s != "" && FirstItem(s).Lone? && ReadBody(s[1..]).Some?
    ensures var items := ReadBody(s[1..]).value.0; items != [] && items[0].Plain?
  {
    hide ReadBody;
    var s1 := s[1..];
    if s1 == "" { BodyEmpty(s1); } else { BodySplit(s1); }
  }

  lemma {:induction false} BodySound(s: string)
    ensures var r := ReadBody(s);
      r.Some? ==> BodyOk(r.value.0) && s == BodyText(r.value.0) + "\"" + r.value.1
    decreases |s|
  {
    hide ReadBody, BodyText, BodyOk, FirstItem, ItemOk;
    if s == "" || s[0] == '"' {
      BodyEmpty(s);
    } else {
      BodySplit(s);
      var it := FirstItem(s);
      var s1 := s[|ItemText(it)|..];
      BodySound(s1);
      if ReadBody(s1).Some? {
        var (items, rest) := ReadBody(s1).value;
        if it.Lone? { LoneIsFollowed(s); }
        BodyCons(it, items);
        Split(s, |ItemText(it)|);
        Cat4(ItemText(it), BodyText(items), "\"", rest);
        Cat3(BodyText(items), "\"", rest);
      }
    }
  }

  lemma FirstChar(s: string, c: string)
    requires s != "" && |c| == 1 && s[0] == c[0]
    ensures s == c + s[1..]
  {}

  lemma QuotedCat(s: string, s1: string, x: string, s2: string, gap: string, rest: string)
    requires s == "\"" + s1 && s1 == x + "\"" + s2 && s2 == gap + rest
    ensures s == "\"" + x + "\"" + gap + rest
  {
    Cat3(x, "\"", s2);
    Cat5("\"", x, "\"", gap, rest);
  }

  lemma ValueSound(s: string)
    ensures var r := ReadValue(s);
      r.Some? ==> ValueOk(r.value.0) && s == ValueText(r.value.0) + r.value.1
  {
    hide ReadBody, BodyText, BodyOk, Blank;
    if s != "" && s[0] == '"' && ReadValue(s).Some? {
      BodySound(s[1..]);
      var (items, rest) := ReadBody(s[1..]).value;
      FirstChar(s, "\"");
      Split(rest, Blank(rest));
      QuotedCat(s, s[1..], BodyText(items), rest, rest[..Blank(rest)], Trim(rest));
    } else if s != "" {
      Split(s, NumLen(s));
    }
  }

  lemma ItemCat(s: string, s1: string, gap: string, v: string, s2: string, more: string, rest: string)
    requires s == "," + s1 && s1 == gap + (v + s2) && s2 == more + rest
    ensures s == "," + gap + v + more + rest
  {
    Cat5(",", gap, v, more, rest);
  }

  lemma {:induction false} ItemsSound(s: string)
    requires Trimmed(s)
    ensures var r := ReadItems(s);
      r.Some? ==> ItemsOk(r.value.0) && s == ItemsText(r.value.0) + r.value.1
    decreases |s|
  {
    if s != "" && s[0] == ',' && ReadItems(s).Some? {
      var s1 := s[1..];
      ValueSound(Trim(s1));
      var (v, rest) := ReadValue(Trim(s1)).value;
      ItemsSound(rest);
      var (more, rest') := ReadItems(s).value;
      assert more[1..] == ReadItems(rest).value.0;
      FirstChar(s, ",");
      Split(s1, Blank(s1));
      ItemCat(s, s1, s1[..Blank(s1)], ValueText(v), rest, ItemsText(more[1..]), rest');
    }
  }

  lemma OperandSound(list: bool, s: string)
    ensures var r := ReadOperand(list, s);
      r.Some? ==> OperandOk(r.value.0) && s == OperandText(r.value.0) + r.value.1 && r.value.0.Listed? == list
  {
    ValueSound(s);
    if ReadOperand(list, s).Some? && list {
      var (v, rest) := ReadValue(s).value;
      ItemsSound(rest);
      var (more, rest') := ReadItems(rest).value;
      Cat3(ValueText(v), ItemsText(more), rest');
    }
  }

  lemma OpSound(s: string)
    ensures OpLen(s) > 0 <==> OpOf(s[..OpLen(s)]) != NoOp
  {}

  lemma InIsAlnum(op: string)
    requires OpOf(op) == In
    ensures |op| == 2 && IsAlnum(op[0])
  {}

  lemma TestCat(s: string, name: string, s1: string, gap1: string, s2: string, op: string, s3: string,
                gap2: string, v: string, rest: string)
    requires s == name + s1 && s1 == gap1 + s2 && s2 == op + s3 && s3 == gap2 + (v + rest)
    ensures s == name + gap1 + op + gap2 + v + rest
  {
    Cat6(name, gap1, op, gap2, v, rest);
  }

  lemma TestTextSound(s: string)
    ensures var r := ReadTest(s); r.Some? ==> s == TestText(r.value.0) + r.value.1
  {
    hide Blank, ReadOperand, OperandText, NameLen, OpLen, OpOf, FieldOf, AllowedTest;
    if ReadTest(s).Some? {
      var (t, rest) := ReadTest(s).value;
      var s1 := s[NameLen(s)..];
      var s2 := Trim(s1);
      var s3 := s2[OpLen(s2)..];
      OperandSound(OpOf(t.op) == In, Trim(s3));
      Split(s, NameLen(s));
      Split(s1, Blank(s1));
      Split(s2, OpLen(s2));
      Split(s3, Blank(s3));
      TestCat(s, t.name, s1, t.gap1, s2, t.op, s3, t.gap2, OperandText(t.val), rest);
    }
  }

  lemma TestSound(s: string)
    ensures var r := ReadTest(s);
      r.Some? ==> TestOk(r.value.0) && s == TestText(r.value.0) + r.value.1
  {
    hide Blank, ReadOperand, OperandText, OperandOk, OperandOf, NameLen;
    hide OpLen, OpOf, FieldOf, Allowed, LowerAll, TestText;
    if ReadTest(s).Some? {
      TestTextSound(s);
      var (t, rest) := ReadTest(s).value;
      var s1 := s[NameLen(s)..];
      var s2 := Trim(s1);
      OpSound(s2);
      OperandSound(OpOf(t.op) == In, Trim(s2[OpLen(s2)..]));
      var tt := TestOf(t);
      AllowedMeans(TestType(tt.field, tt.op, TypeOf(tt.val)));
      assert t.name != "" by {
        assert tt.field != NoField && FieldName(tt.field) == LowerAll(t.name);
      }
      if OpOf(t.op) == In {
        InIsAlnum(t.op);
        assert s1[Blank(s1)] == t.op[0];
      }
    }
  }

  lemma ParenCat(s: string, s1: string, g: string, x: string, s2: string, s3: string, h: string, rest: string)
    requires s == "(" + s1 && s1 == g + (x + s2) && s2 == ")" + s3 && s3 == h + rest
    ensures s == "(" + g + x + ")" + h + rest
  {
    Cat6("(", g, x, ")", h, rest);
  }

  /** A parenthesis, blanks, what is inside, the closing parenthesis and blanks. */
  lemma ParenText(s: string, x: string, s2: string)
    requires s != "" && s[0] == '(' && Trim(s[1..]) == x + s2 && s2 != "" && s2[0] == ')'
    ensures s == "(" + s[1..][..Blank(s[1..])] + x + ")" + s2[1..][..Blank(s2[1..])] + Trim(s2[1..])
  {
    hide Blank;
    var s1, s3 := s[1..], s2[1..];
    FirstChar(s, "(");
    Split(s1, Blank(s1));
    FirstChar(s2, ")");
    Split(s3, Blank(s3));
    ParenCat(s, s1, s1[..Blank(s1)], x, s2, s3, s3[..Blank(s3)], Trim(s3));
  }

  lemma NotText(s: string, x: string, rest: string)
    requires s != "" && s[0] == '!' && Trim(s[1..]) == x + rest
    ensures s == "!" + s[1..][..Blank(s[1..])] + x + rest
  {
    hide Blank;
    var s1 := s[1..];
    FirstChar(s, "!");
    Split(s1, Blank(s1));
    Cat4("!", s1[..Blank(s1)], x, rest);
  }

  lemma {:induction false} OneSound(s: string)
    ensures var r := ReadOne(s);
      r.Some? ==> OneOk(r.value.0) && s == OneText(r.value.0) + r.value.1
    decreases |s|, 0
  {
    hide Blank, ReadTest, ReadExpr, TestOk, TestText, ExprText, ExprOk;
    if ReadOne(s).Some? {
      var s1 := Trim(s[1..]);
      if s[0] == '(' {
        ExprSound(s1);
        var (e, s2) := ReadExpr(s1).value;
        ParenText(s, ExprText(e), s2);
      } else if s[0] == '!' {
        OneSound(s1);
        var (x, rest) := ReadOne(s1).value;
        NotText(s, OneText(x), rest);
      } else {
        TestSound(s);
      }
    }
  }

  lemma PairCat(s: string, l: string, s1: string, op: string, s2: string, gap: string, r: string, rest: string)
    requires s == l + s1 && s1 == op + s2 && s2 == gap + (r + rest)
    ensures s == l + op + gap + r + rest
  {
    Cat5(l, op, gap, r, rest);
  }

  lemma {:induction false} ExprSound(s: string)
    ensures var r := ReadExpr(s);
      r.Some? ==> ExprOk(r.value.0) && s == ExprText(r.value.0) + r.value.1
    decreases |s|, 1
  {
    hide Blank, ReadOne, OneText, OneOk;
    if ReadExpr(s).Some? {
      OneSound(s);
      var (a, s1) := ReadOne(s).value;
      var (t, rest) := ReadExpr(s).value;
      if t.CBin? {
        var s2 := s1[1..];
        OneSound(Trim(s2));
        FirstChar(s1, [OpChar(t.or)]);
        Split(s2, Blank(s2));
        PairCat(s, OneText(t.l), s1, [OpChar(t.or)], s2, t.gap, OneText(t.r), rest);
      }
    }
  }

  // ----- completeness: the text of a well-formed tree is read back into that very tree -----

  lemma FirstItemIs(it: StrItem, rest: string)
    requires ItemOk(it) && (it.Lone? ==> rest != "" && rest[0] != '\\' && rest[0] != '"')
    ensures var s := ItemText(it) + rest; s != "" && s[0] != '"' && FirstItem(s) == it
  {}

  /** What follows a backslash that escapes nothing. */
  lemma PlainFirst(items: seq<StrItem>, rest: string)
    requires BodyOk(items) && items != [] && items[0].Plain?
    ensures var s := BodyText(items) + "\"" + rest; s != "" && s[0] != '\\' && s[0] != '"'
  {}

  lemma {:induction false} BodyComplete(items: seq<StrItem>, rest: string)
    requires BodyOk(items)
    ensures ReadBody(BodyText(items) + "\"" + rest) == Some((items, rest))
  {
    hide ReadBody, BodyText, BodyOk, FirstItem, ItemOk;
    var s := BodyText(items) + "\"" + rest;
    if items == [] {
      BodyEmpty("");
      BodyEmpty(s);
      Joined("\"", rest);
    } else {
      var it, more := items[0], items[1..];
      var s1 := BodyText(more) + "\"" + rest;
      assert [it] + more == items;
      BodyCons(it, more);
      BodyComplete(more, rest);
      Cat4(ItemText(it), BodyText(more), "\"", rest);
      Cat3(BodyText(more), "\"", rest);
      if it.Lone? { PlainFirst(more, rest); }
      FirstItemIs(it, s1);
      Joined(ItemText(it), s1);
      BodySplit(s);
    }
  }

  /** What may follow a value: anything that could not belong to it. */
  predicate Boundary(s: string) { s == "" || !NumChar(s[0]) }

  lemma ValueComplete(v: CValue, rest: string)
    requires ValueOk(v) && Boundary(rest)
    ensures ReadValue(ValueText(v) + rest) == Some((v, rest))
    ensures Trimmed(ValueText(v) + rest)
  {
    match v
    case CNum(t) =>
      NumExtent(t, rest);
      Joined(t, rest);
    case CStr(items, gap) =>
      var tail := BodyText(items) + "\"" + (gap + rest);
      BodyComplete(items, gap + rest);
      BlankSplit(gap, rest);
      Joined(gap, rest);
      Cat5("\"", BodyText(items), "\"", gap, rest);
      Cat3(BodyText(items), "\"", gap + rest);
      Joined("\"", tail);
  }

  lemma ItemsCons(it: CItem, more: seq<CItem>)
    ensures ItemsText([it] + more) == "," + it.gap + ValueText(it.val) + ItemsText(more)
    ensures ItemsOk([it] + more) <==> ItemsOk([it]) && ItemsOk(more)
  {
    var all := [it] + more;
    assert all[0] == it && all[1..] == more;
  }

  lemma ItemsEmpty(rest: string)
    requires Boundary(rest) && (rest == "" || rest[0] != ',')
    ensures ItemsText([]) == "" && Trimmed(rest) && ReadItems(rest) == Some(([], rest))
  {}

  /** A comma, blanks and a value are read as an item, and the rest of the list behind them. */
  lemma ItemRead(gap: string, v: CValue, x: string, s1: string)
    requires AllSpace(gap) && Trimmed(x) && Trimmed(s1) && ReadValue(x) == Some((v, s1))
    ensures var s := "," + (gap + x);
      && Trimmed(s) && Boundary(s)
      && ReadItems(s) == match ReadItems(s1)
        case None => None
        case Some((more, rest)) => Some(([CItem(gap, v)] + more, rest))
  {
    hide Blank, ReadValue;
    Joined(",", gap + x);
    BlankSplit(gap, x);
    Joined(gap, x);
  }

  lemma ItemOkMeans(it: CItem)
    ensures ItemsOk([it]) <==> AllSpace(it.gap) && ValueOk(it.val)
  {}

  lemma {:induction false} ItemsComplete(more: seq<CItem>, rest: string)
    requires ItemsOk(more) && Boundary(rest) && (rest == "" || rest[0] != ',')
    ensures Trimmed(ItemsText(more) + rest) && Boundary(ItemsText(more) + rest)
    ensures ReadItems(ItemsText(more) + rest) == Some((more, rest))
  {
    hide ReadValue, ReadItems, ValueText, ValueOk, ItemsText, ItemsOk, Boundary, Trimmed, AllSpace;
    if more == [] {
      ItemsEmpty(rest);
      assert ItemsText(more) + rest == rest;
    } else {
      var it, tail := more[0], more[1..];
      var s1 := ItemsText(tail) + rest;
      assert more == [it] + tail;
      ItemsCons(it, tail);
      ItemOkMeans(it);
      ItemsComplete(tail, rest);
      ValueComplete(it.val, s1);
      ItemRead(it.gap, it.val, ValueText(it.val) + s1, s1);
      ItemCat("," + (it.gap + (ValueText(it.val) + s1)), it.gap + (ValueText(it.val) + s1), it.gap, ValueText(it.val),
              s1, ItemsText(tail), rest);
    }
  }

  lemma OperandComplete(v: COperand, rest: string)
    requires OperandOk(v) && Boundary(rest) && (rest == "" || rest[0] != ',')
    ensures ReadOperand(v.Listed?, OperandText(v) + rest) == Some((v, rest))
    ensures var s := OperandText(v) + rest; s != "" && Trimmed(s) && s[0] != '='
  {
    match v
    case Scalar(x) =>
      ValueComplete(x, rest);
      Joined(ValueText(x), rest);
    case Listed(x, more) =>
      ItemsComplete(more, rest);
      ValueComplete(x, ItemsText(more) + rest);
      Joined(ValueText(x), ItemsText(more) + rest);
      Cat3(ValueText(x), ItemsText(more), rest);
  }

  lemma {:induction false} NameLenSplit(t: string, rest: string)
    requires AllAlnum(t) && (rest == "" || !IsAlnum(rest[0]))
    ensures NameLen(t + rest) == |t|
  {
    if t != "" {
      assert (t + rest)[1..] == t[1..] + rest;
      NameLenSplit(t[1..], rest);
    } else {
      assert t + rest == rest;
    }
  }

  lemma OpComplete(op: string, rest: string)
    requires OpOf(op) != NoOp && (rest == "" || rest[0] != '=')
    ensures OpLen(op + rest) == |op|
    ensures !IsSpace(op[0]) && (OpOf(op) != In ==> !IsAlnum(op[0]))
  {}

  /** What may follow an operand of & and |. */
  predicate FollowsOne(s: string) { s == "" || s[0] == ')' || s[0] == '&' || s[0] == '|' }

  predicate FollowsExpr(s: string) { s == "" || s[0] == ')' }

  /** An operator is not blank, and only IN starts like a name. */
  lemma OpStart(op: string)
    requires OpOf(op) != NoOp
    ensures op != "" && !IsSpace(op[0]) && (OpOf(op) != In ==> !IsAlnum(op[0]))
  {}

  lemma TestComplete(t: CTest, rest: string)
    requires TestOk(t) && FollowsOne(rest)
    ensures ReadTest(TestText(t) + rest) == Some((t, rest))
    ensures TestText(t) != "" && IsAlnum(TestText(t)[0])
  {
    hide Blank, ReadOperand, OperandText, OperandOk, OperandOf, NameLen, OpLen, OpOf, FieldOf, Allowed, LowerAll;
    var s4 := OperandText(t.val) + rest;
    var s3 := t.gap2 + s4;
    var s2 := t.op + s3;
    var s1 := t.gap1 + s2;
    OperandComplete(t.val, rest);
    OpStart(t.op);
    Joined(t.gap2, s4);
    BlankSplit(t.gap2, s4);
    OpComplete(t.op, s3);
    Joined(t.op, s3);
    BlankSplit(t.gap1, s2);
    Joined(t.gap1, s2);
    NameLenSplit(t.name, s1);
    Joined(t.name, s1);
    Cat6(t.name, t.gap1, t.op, t.gap2, OperandText(t.val), rest);
  }

  lemma {:induction false} OneComplete(t: COne, rest: string)
    requires OneOk(t) && FollowsOne(rest)
    ensures ReadOne(OneText(t) + rest) == Some((t, rest))
    ensures Trimmed(OneText(t) + rest)
    decreases t
  {
    hide Blank, ReadTest, ReadExpr, TestOk, TestText, ExprText, ExprOk;
    match t
    case CParen(g1, e, g2) =>
      var s3 := g2 + rest;
      var s2 := ")" + s3;
      var s1 := ExprText(e) + s2;
      ExprComplete(e, s2);
      BlankSplit(g1, s1);
      Joined(g1, s1);
      BlankSplit(g2, rest);
      Joined(g2, rest);
      Joined(")", s3);
      Joined("(", g1 + s1);
      Cat6("(", g1, ExprText(e), ")", g2, rest);
    case CNot(g, x) =>
      OneComplete(x, rest);
      BlankSplit(g, OneText(x) + rest);
      Joined(g, OneText(x) + rest);
      Joined("!", g + (OneText(x) + rest));
      Cat4("!", g, OneText(x), rest);
    case CLeaf(x) =>
      TestComplete(x, rest);
      Joined(TestText(x), rest);
  }

  lemma {:induction false} ExprComplete(t: CExpr, rest: string)
    requires ExprOk(t) && FollowsExpr(rest)
    ensures ReadExpr(ExprText(t) + rest) == Some((t, rest))
    ensures Trimmed(ExprText(t) + rest)
    decreases t
  {
    hide Blank, ReadOne, OneText, OneOk;
    match t
    case CSingle(x) =>
      OneComplete(x, rest);
    case CBin(l, or, g, r) =>
      var s2 := OneText(r) + rest;
      var s1 := [OpChar(or)] + (g + s2);
      OneComplete(r, rest);
      BlankSplit(g, s2);
      Joined(g, s2);
      Joined([OpChar(or)], g + s2);
      OneComplete(l, s1);
      Cat5(OneText(l), [OpChar(or)], g, OneText(r), rest);
  }

  // ----- main results -----

  /** The parser accepts exactly the texts of the grammar, with the meaning the grammar gives them. */
  lemma ParserAcceptsGrammar(s: string, e: Expr)
    ensures Parse(s) == Some(e) <==> exists gap, t :: Derives(s, gap, t, e)
  {
    hide Blank, ReadExpr, ExprText, ExprOk, ExprOf;
    if Parse(s) == Some(e) {
      ExprSound(Trim(s));
      var t := ReadExpr(Trim(s)).value.0;
      assert s == s[..Blank(s)] + Trim(s);
      assert Derives(s, s[..Blank(s)], t, e);
    }
    if gap, t :| Derives(s, gap, t, e) {
      DerivationIsRead(s, gap, t, e);
    }
  }

  lemma DerivationIsRead(s: string, gap: string, t: CExpr, e: Expr)
    requires Derives(s, gap, t, e)
    ensures gap == s[..Blank(s)] && ReadExpr(Trim(s)) == Some((t, "")) && Parse(s) == Some(e)
  {
    ExprComplete(t, "");
    assert ExprText(t) + "" == ExprText(t);
    BlankSplit(gap, ExprText(t));
  }

  /** No text has two derivations: not only the meaning but the tree itself is unique. */
  lemma GrammarIsUnambiguous(s: string, gap: string, t: CExpr, e: Expr, gap': string, t': CExpr, e': Expr)
    requires Derives(s, gap, t, e) && Derives(s, gap', t', e')
    ensures gap == gap' && t == t' && e == e'
  {
    DerivationIsRead(s, gap, t, e);
    DerivationIsRead(s, gap', t', e');
  }

  lemma {:induction false} WellFormedIsAccepted(t: CExpr)
    requires ExprOk(t)
    ensures Accepted(ExprOf(t))
    decreases t
  {
    match t
    case CSingle(x) => OneIsAccepted(x);
    case CBin(l, _, _, r) => OneIsAccepted(l); OneIsAccepted(r);
  }

  lemma {:induction false} OneIsAccepted(t: COne)
    requires OneOk(t)
    ensures Accepted(OneOf(t))
    decreases t
  {
    match t
    case CParen(_, e, _) => WellFormedIsAccepted(e);
    case CNot(_, x) => OneIsAccepted(x);
    case CLeaf(_) =>
  }

  /** Every accepted tree has only tests from the table, flat lists, lower-case strings and C ints. */
  lemma ParsedIsAccepted(s: string)
    ensures Parse(s).Some? ==> Accepted(Parse(s).value)
  {
    if Parse(s).Some? {
      ExprSound(Trim(s));
      WellFormedIsAccepted(ReadExpr(Trim(s)).value.0);
    }
  }
}
