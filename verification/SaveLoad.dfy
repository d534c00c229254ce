/** Filters that go through a bounded buffer and are parsed again: when they survive. */
module SaveLoad {
  import opened Text
  import opened Filter
  import opened Grammar
  import opened GrammarProofs
  import opened Buffer
  import opened Printer
  import opened RoundTrip

  // ----- what every text of a filter has in common: digits and quotes, and the balance of parentheses -----

  predicate Heavy(c: char) { IsDigit(c) || c == '"' }

  function Weight(s: string): nat
  { if s == "" then 0 else (if Heavy(s[0]) then 1 else 0) + Weight(s[1..]) }

  function Balance(s: string): int
  { if s == "" then 0 else (if s[0] == '(' then 1 else if s[0] == ')' then -1 else 0) + Balance(s[1..]) }

  lemma {:induction false} TallyCat(a: string, b: string)
    ensures Weight(a + b) == Weight(a) + Weight(b) && Balance(a + b) == Balance(a) + Balance(b)
  {
    if a == "" {
      assert a + b == b;
    } else {
      assert (a + b)[1..] == a[1..] + b;
      TallyCat(a[1..], b);
    }
  }

  lemma Tally3(a: string, b: string, c: string)
    ensures Weight(a + b + c) == Weight(a) + Weight(b) + Weight(c)
    ensures Balance(a + b + c) == Balance(a) + Balance(b) + Balance(c)
  {
    TallyCat(a, b);
    TallyCat(a + b, c);
  }

  lemma TallyOne(c: char)
    ensures Weight([c]) == (if Heavy(c) then 1 else 0)
    ensures Balance([c]) == if c == '(' then 1 else if c == ')' then -1 else 0
  {
    assert [c][1..] == "";
  }

  /** Neither a quote or digit nor a parenthesis. */
  predicate Light(s: string) { forall i :: 0 <= i < |s| ==> !Heavy(s[i]) && s[i] != '(' && s[i] != ')' }

  lemma {:induction false} TallyLight(s: string)
    requires Light(s)
    ensures Weight(s) == 0 && Balance(s) == 0
  {
    if s != "" { TallyLight(s[1..]); }
  }

  lemma {:induction false} NoParens(s: string)
    requires '(' !in s && ')' !in s
    ensures Balance(s) == 0
  {
    if s != "" { NoParens(s[1..]); }
  }

  lemma {:induction false} HeavyEnd(s: string)
    requires s != "" && Heavy(s[|s| - 1])
    ensures Weight(s) > 0
  {
    if |s| > 1 { HeavyEnd(s[1..]); }
  }

  /** The least weight of a text for a value, and its balance. */
  function ValueWeight(v: Value): nat
  {
    match v
    case Num(n) => |Digits(if n < 0 then -n else n)|
    case Str(s) => 2 + Weight(s)
    case List(vs) => MoreWeight(vs)
  }

  function MoreWeight(vs: seq<Value>): nat
  { if vs == [] then 0 else ValueWeight(vs[0]) + MoreWeight(vs[1..]) }

  function ValueBalance(v: Value): int
  {
    match v
    case Num(_) => 0
    case Str(s) => Balance(s)
    case List(vs) => MoreBalance(vs)
  }

  function MoreBalance(vs: seq<Value>): int
  { if vs == [] then 0 else ValueBalance(vs[0]) + MoreBalance(vs[1..]) }

  function LeastWeight(e: Expr): nat
  {
    match e
    case Self(t) => ValueWeight(t.val)
    case Not(x) => LeastWeight(x)
    case And(a, b) => LeastWeight(a) + LeastWeight(b)
    case Or(a, b) => LeastWeight(a) + LeastWeight(b)
  }

  function NetBalance(e: Expr): int
  {
    match e
    case Self(t) => ValueBalance(t.val)
    case Not(x) => NetBalance(x)
    case And(a, b) => NetBalance(a) + NetBalance(b)
    case Or(a, b) => NetBalance(a) + NetBalance(b)
  }

  // ----- numbers: no text has fewer digits than the printed one -----

  function Pow10(k: nat): nat { if k == 0 then 1 else 10 * Pow10(k - 1) }

  lemma {:induction false} Pow10Grows(j: nat, k: nat)
    requires j <= k
    ensures 1 <= Pow10(j) <= Pow10(k)
  {
    if j < k { Pow10Grows(j, k - 1); } else if j > 0 { Pow10Grows(j - 1, k - 1); }
  }

  lemma {:induction false} DigitsLength(n: nat, k: nat)
    requires k > 0 && n < Pow10(k)
    ensures |Digits(n)| <= k
  {
    if n >= 10 {
      assert k > 1;
      DigitsLength(n / 10, k - 1);
    }
  }

  /** Up to nine digits there is no overflow. */
  lemma {:induction false} NumFits(t: string)
    requires NumText(t) && Weight(t) <= 9
    ensures 0 <= NumValue(t) < Pow10(Weight(t))
  {
    if t != "" {
      var k := |t| - 1;
      var init, c := t[..k], t[k];
      assert t == init + [c];
      TallyCat(init, [c]);
      TallyOne(c);
      NumFits(init);
      Pow10Grows(Weight(init), if IsDigit(c) then 8 else 9);
      assert Pow10(8) == 100_000_000 by { PowersOfTen(); }
    }
  }

  lemma PowersOfTen()
    ensures Pow10(8) == 100_000_000 && Pow10(10) == 10_000_000_000
  {
    assert Pow10(4) == 10_000;
    assert Pow10(8) == 100_000_000;
  }

  lemma NumberTally(t: string)
    requires t != "" && IsDigit(t[0]) && NumText(t)
    ensures Weight(t) >= ValueWeight(Num(NumValue(t))) && Balance(t) == 0
  {
    hide Digits, NumValue, Pow10;
    NoParens(t);
    var n := NumValue(t);
    var m := if n < 0 then -n else n;
    if Weight(t) <= 9 {
      NumFits(t);
      assert Weight(t) > 0;
      DigitsLength(m, Weight(t));
    } else {
      PowersOfTen();
      DigitsLength(m, 10);
    }
  }

  // ----- any text of a filter -----

  lemma {:induction false} BodyTally(items: seq<StrItem>)
    requires BodyOk(items)
    ensures Weight(BodyText(items)) == Weight(BodyString(items))
    ensures Balance(BodyText(items)) == Balance(BodyString(items))
  {
    if items != [] {
      var it := items[0];
      BodyTally(items[1..]);
      TallyCat(ItemText(it), BodyText(items[1..]));
      TallyCat([ItemChar(it)], BodyString(items[1..]));
      TallyOne(ItemChar(it));
      ItemTally(it);
    }
  }

  lemma ItemTally(it: StrItem)
    requires ItemOk(it)
    ensures Weight(ItemText(it)) == Weight([ItemChar(it)]) && Balance(ItemText(it)) == Balance([ItemChar(it)])
  {
    TallyOne(ItemChar(it));
    match it
    case Esc(c) =>
      assert ['\\', c] == ['\\'] + [c];
      TallyCat(['\\'], [c]);
      TallyOne('\\');
      TallyOne(c);
    case Lone =>
      TallyOne('\\');
    case Plain(c) =>
      TallyOne(c);
  }

  lemma SpaceIsLight(s: string)
    requires AllSpace(s)
    ensures Light(s)
  {}

  lemma ValueTally(v: CValue)
    requires ValueOk(v)
    ensures Weight(ValueText(v)) >= ValueWeight(ValueOf(v)) && Balance(ValueText(v)) == ValueBalance(ValueOf(v))
  {
    hide Weight, Balance, Digits, NumValue, BodyText, BodyString, BodyOk;
    match v
    case CNum(t) => NumberTally(t);
    case CStr(items, gap) =>
      BodyTally(items);
      SpaceIsLight(gap);
      TallyLight(gap);
      TallyOne('"');
      Tally3("\"", BodyText(items), "\"");
      TallyCat("\"" + BodyText(items) + "\"", gap);
  }

  lemma {:induction false} ItemsTally(more: seq<CItem>)
    requires ItemsOk(more)
    ensures Weight(ItemsText(more)) >= MoreWeight(ItemsOf(more))
    ensures Balance(ItemsText(more)) == MoreBalance(ItemsOf(more))
  {
    hide ValueText, ValueOf, ValueOk, ValueWeight, ValueBalance;
    if more != [] {
      var CItem(gap, v) := more[0];
      assert ItemsOf(more)[1..] == ItemsOf(more[1..]);
      ItemsTally(more[1..]);
      ValueTally(v);
      SpaceIsLight(gap);
      TallyLight(gap);
      TallyOne(',');
      Tally3(",", gap, ValueText(v));
      TallyCat("," + gap + ValueText(v), ItemsText(more[1..]));
    }
  }

  lemma OperandTally(v: COperand)
    requires OperandOk(v)
    ensures Weight(OperandText(v)) >= ValueWeight(OperandOf(v)) && Balance(OperandText(v)) == ValueBalance(OperandOf(v))
  {
    hide Weight, Balance, ValueText, ValueOf, ValueOk, ItemsOk, ItemsText;
    match v
    case Scalar(x) => ValueTally(x);
    case Listed(x, more) =>
      ValueTally(x);
      ItemsTally(more);
      TallyCat(ValueText(x), ItemsText(more));
      assert ([ValueOf(x)] + ItemsOf(more))[1..] == ItemsOf(more);
  }

  lemma TestTally(t: CTest)
    requires TestOk(t)
    ensures Weight(TestText(t)) >= ValueWeight(TestOf(t).val) && Balance(TestText(t)) == ValueBalance(TestOf(t).val)
  {
    hide Weight, Balance, OperandText, OperandOf, OperandOk, FieldOf, AllowedTest, ValueWeight, ValueBalance;
    var head := t.name + t.gap1 + t.op + t.gap2;
    OperandTally(t.val);
    NoParens(t.name + t.gap1 + t.op + t.gap2);
    TallyCat(head, OperandText(t.val));
  }

  lemma {:induction false} OneTally(t: COne)
    requires OneOk(t)
    ensures Weight(OneText(t)) >= LeastWeight(OneOf(t)) && Balance(OneText(t)) == NetBalance(OneOf(t))
    decreases t
  {
    hide Weight, Balance, TestOk, TestText, TestOf;
    match t
    case CParen(g1, e, g2) =>
      ExprTally(e);
      SpaceIsLight(g1);
      SpaceIsLight(g2);
      TallyLight(g1);
      TallyLight(g2);
      TallyOne('(');
      TallyOne(')');
      Tally3("(", g1, ExprText(e));
      Tally3("(" + g1 + ExprText(e), ")", g2);
    case CNot(g, x) =>
      OneTally(x);
      SpaceIsLight(g);
      TallyLight(g);
      TallyOne('!');
      Tally3("!", g, OneText(x));
    case CLeaf(x) =>
      TestTally(x);
  }

  lemma {:induction false} ExprTally(t: CExpr)
    requires ExprOk(t)
    ensures Weight(ExprText(t)) >= LeastWeight(ExprOf(t)) && Balance(ExprText(t)) == NetBalance(ExprOf(t))
    decreases t
  {
    hide Weight, Balance, OneOk, OneText, OneOf;
    match t
    case CSingle(x) => OneTally(x);
    case CBin(l, or, g, r) =>
      OneTally(l);
      OneTally(r);
      SpaceIsLight(g);
      TallyLight(g);
      TallyOne(OpChar(or));
      Tally3(OneText(l), [OpChar(or)], g);
      TallyCat(OneText(l) + [OpChar(or)] + g, OneText(r));
  }

  // ----- the printed text -----

  lemma {:induction false} DigitsTally(s: string)
    requires AllDigits(s)
    ensures Weight(s) == |s| && Balance(s) == 0
  {
    if s != "" { DigitsTally(s[1..]); }
  }

  lemma {:induction false} ValuePrinted(v: Value)
    ensures Weight(FmtValue(v)) == ValueWeight(v) && Balance(FmtValue(v)) == ValueBalance(v)
    decreases v, 1
  {
    hide Digits;
    match v
    case Num(n) =>
      DigitsTally(Digits(if n < 0 then -n else n));
      if n < 0 {
        TallyCat("-", Digits(-n));
        TallyOne('-');
      }
    case Str(s) =>
      Tally3("\"", s, "\"");
      TallyOne('"');
    case List(vs) =>
      if vs != [] {
        ValuePrinted(vs[0]);
        MorePrinted(vs[1..]);
        TallyCat(FmtValue(vs[0]), FmtMore(vs[1..]));
      }
  }

  lemma {:induction false} MorePrinted(vs: seq<Value>)
    ensures Weight(FmtMore(vs)) == MoreWeight(vs) && Balance(FmtMore(vs)) == MoreBalance(vs)
    decreases vs, 0
  {
    if vs != [] {
      ValuePrinted(vs[0]);
      MorePrinted(vs[1..]);
      TallyLight(", ");
      Tally3(", ", FmtValue(vs[0]), FmtMore(vs[1..]));
    }
  }

  lemma HeadPrinted(t: Test)
    ensures Weight(FmtHead(t)) == 0 && Balance(FmtHead(t)) == 0
  {
    hide Weight, Balance;
    assert Light(FieldName(t.field)) && Light(OpName(t.op));
    TallyLight(FmtHead(t));
  }

  lemma Brackets()
    ensures Balance("( ") == 1 && Balance("!( ") == 1 && Balance(" )") == -1
    ensures Balance(" )&( ") == 0 && Balance(" )|( ") == 0
    ensures Weight("( ") == Weight("!( ") == Weight(" )") == Weight(" )&( ") == Weight(" )|( ") == 0
  {
    assert "( "[1..] == " " && "!( "[1..] == "( " && " )"[1..] == ")" && " "[1..] == "" && ")"[1..] == "";
    assert " )&( "[1..] == ")&( " && ")&( "[1..] == "&( " && "&( "[1..] == "( ";
    assert " )|( "[1..] == ")|( " && ")|( "[1..] == "|( " && "|( "[1..] == "( ";
  }

  lemma {:induction false} ExprPrinted(e: Expr)
    ensures Weight(FmtExpr(e)) == LeastWeight(e) && Balance(FmtExpr(e)) == NetBalance(e)
  {
    hide Weight, Balance, FmtHead, FmtValue;
    Brackets();
    match e
    case Self(t) =>
      ValuePrinted(t.val);
      HeadPrinted(t);
      TallyCat(FmtHead(t), FmtValue(t.val));
    case Not(x) =>
      ExprPrinted(x);
      Tally3("!( ", FmtExpr(x), " )");
    case And(a, b) =>
      ExprPrinted(a);
      ExprPrinted(b);
      Tally3("( ", FmtExpr(a), " )&( ");
      Tally3("( " + FmtExpr(a) + " )&( ", FmtExpr(b), " )");
    case Or(a, b) =>
      ExprPrinted(a);
      ExprPrinted(b);
      Tally3("( ", FmtExpr(a), " )|( ");
      Tally3("( " + FmtExpr(a) + " )|( ", FmtExpr(b), " )");
  }

  // ----- no tail of the printed text can be missing -----

  /** Dropping this tail loses a digit or a quote, or closes fewer parentheses than are open. */
  predicate Needed(tail: string) { Weight(tail) > 0 || Balance(tail) < 0 }

  lemma ScalarEnd(v: Value)
    requires AcceptedScalar(v)
    ensures FmtValue(v) != "" && Heavy(FmtValue(v)[|FmtValue(v)| - 1])
  {
    hide Digits;
    if v.Num? {
      var d := Digits(if v.n < 0 then -v.n else v.n);
      assert IsDigit(d[|d| - 1]);
    }
  }

  lemma {:induction false} MoreEnd(vs: seq<Value>)
    requires forall i :: 0 <= i < |vs| ==> AcceptedScalar(vs[i])
    ensures FmtMore(vs) == "" || Heavy(FmtMore(vs)[|FmtMore(vs)| - 1])
  {
    hide FmtValue;
    if vs != [] {
      ScalarEnd(vs[0]);
      MoreEnd(vs[1..]);
      var a, b := ", " + FmtValue(vs[0]), FmtMore(vs[1..]);
      assert a[|a| - 1] == FmtValue(vs[0])[|FmtValue(vs[0])| - 1];
      assert FmtMore(vs) == a + b;
    }
  }

  lemma ValueEnd(v: Value)
    requires AcceptedValue(v)
    ensures FmtValue(v) != "" && Heavy(FmtValue(v)[|FmtValue(v)| - 1])
  {
    if v.List? {
      ScalarEnd(v.vs[0]);
      MoreEnd(v.vs[1..]);
    } else {
      ScalarEnd(v);
    }
  }

  lemma {:induction false} TailNeeded(e: Expr, k: nat)
    requires Accepted(e) && k < |FmtExpr(e)|
    ensures Needed(FmtExpr(e)[k..])
    ensures LeastWeight(e) > 0
    decreases e, 1
  {
    hide Weight, Balance, FmtValue, FmtHead, AllowedTest, AcceptedValue, Needed;
    match e
    case Self(t) =>
      ValueEnd(t.val);
      var s := FmtExpr(e);
      assert s[|s| - 1] == FmtValue(t.val)[|FmtValue(t.val)| - 1] == s[k..][|s[k..]| - 1];
      HeavyEnd(s[k..]);
      HeavyEnd(s);
      ExprPrinted(e);
      NeededIf(s[k..]);
    case Not(x) => ClosedTail(e, "!( ", x, k);
    case And(a, b) => ClosedTail(e, "( " + FmtExpr(a) + " )&( ", b, k);
    case Or(a, b) => ClosedTail(e, "( " + FmtExpr(a) + " )|( ", b, k);
  }

  lemma NeededIf(tail: string)
    ensures Needed(tail) <==> Weight(tail) > 0 || Balance(tail) < 0
  {}

  lemma {:induction false} ClosedTail(e: Expr, pre: string, x: Expr, k: nat)
    requires x < e && Accepted(x) && FmtExpr(e) == pre + FmtExpr(x) + " )" && k < |FmtExpr(e)|
    ensures Needed(FmtExpr(e)[k..]) && LeastWeight(x) > 0
    decreases e, 0
  {
    hide Weight, Balance, FmtExpr, Accepted, LeastWeight, Needed;
    var (s, m) := (FmtExpr(e), |pre|);
    var text := FmtExpr(x);
    TextIsNotEmpty(x);
    TailNeeded(x, 0);
    ExprPrinted(x);
    Brackets();
    if k < m {
      assert s[k..] == pre[k..] + text + " )";
      Tally3(pre[k..], text, " )");
    } else if k < m + |text| {
      TailNeeded(x, k - m);
      assert s[k..] == text[k - m..] + " )";
      TallyCat(text[k - m..], " )");
      NeededIf(text[k - m..]);
    } else {
      assert s[k..] == " )"[k - m - |text|..];
      LastBracket(k - m - |text|);
    }
    NeededIf(s[k..]);
  }

  lemma LastBracket(i: nat)
    requires i < 2
    ensures Balance(" )"[i..]) == -1
  {
    assert " )"[0..] == " )" && " )"[1..] == ")";
    Brackets();
    TallyOne(')');
  }

  lemma TextIsNotEmpty(e: Expr)
    ensures FmtExpr(e) != ""
  {
    if e.Self? { assert FmtHead(e.test) != ""; }
  }

  // ----- main results -----

  /** A filter's text that was cut off anywhere is never parsed as that filter. */
  lemma CutTextIsLost(e: Expr, k: nat)
    requires k < |FmtExpr(e)|
    ensures Parse(FmtExpr(e)[..k]) != Some(e)
  {
    hide Parse, FmtExpr, Weight, Balance, ExprText, ExprOf, ExprOk, Accepted, LeastWeight, NetBalance;
    var head, tail := FmtExpr(e)[..k], FmtExpr(e)[k..];
    if Parse(head) == Some(e) {
      ParserAcceptsGrammar(head, e);
      var gap, t :| Derives(head, gap, t, e);
      WellFormedIsAccepted(t);
      ExprTally(t);
      SpaceIsLight(gap);
      TallyLight(gap);
      TallyCat(gap, ExprText(t));
      ExprPrinted(e);
      Split(FmtExpr(e), k);
      TallyCat(head, tail);
      TailNeeded(e, k);
      NeededIf(tail);
      assert false;
    }
  }

  lemma CutString(b: seq<char>, text: string)
    requires b != [] && text != "" && '\0' !in text
    ensures CString(Write(b, 0, |b|, text)) == if |text| < |b| then text else text[..|b| - 1]
  {
    hide CString;
    var k := if |text| < |b| then |text| else |b| - 1;
    var s := text[..k];
    assert text[..|text|] == text;
    assert Write(b, 0, |b|, text) == s + ['\0'] + b[k + 1..];
    CStringIs(s, b[k + 1..]);
  }

  /**
   A filter that was printed into a buffer of any size is parsed as the same filter if and only if it is
   printable and its text fits.
   */
  lemma StoredFilter(e: Expr, b: seq<char>)
    requires b != [] && '\0' !in FmtExpr(e)
    ensures Parse(CString(Write(b, 0, |b|, FmtExpr(e)))) == Some(e) <==> Printable(e) && |FmtExpr(e)| < |b|
  {
    hide Parse, FmtExpr, Printable, CString, Write;
    TextIsNotEmpty(e);
    CutString(b, FmtExpr(e));
    if |FmtExpr(e)| < |b| {
      PrintParse(e);
    } else {
      CutTextIsLost(e, |b| - 1);
    }
  }

  const QUOTED_TITLE := Self(Test(Title, Eq, Str("a\"b")))

  const QUOTED_ITEMS: seq<StrItem> := [Plain('a'), Esc('"'), Plain('b')]

  const QUOTED_TREE := CTest("title", " ", "=", " ", Scalar(CStr(QUOTED_ITEMS, "")))

  lemma QuotedItems()
    ensures BodyOk(QUOTED_ITEMS) && BodyText(QUOTED_ITEMS) == "a\\\"b" && BodyString(QUOTED_ITEMS) == "a\"b"
  {
    var rest := QUOTED_ITEMS[1..];
    assert rest == [Esc('"'), Plain('b')];
    assert rest[1..] == [Plain('b')];
    assert rest[1..][1..] == [];
    assert BodyText(rest[1..]) == "b" && BodyString(rest[1..]) == "b";
    assert BodyText(rest) == "\\\"b" && BodyString(rest) == "\"b";
  }

  lemma QuotedTree()
    ensures TestOk(QUOTED_TREE) && TestOf(QUOTED_TREE) == QUOTED_TITLE.test
    ensures TestText(QUOTED_TREE) == "title = \"a\\\"b\""
  {
    hide BodyOk, BodyText, BodyString, Allowed, QUOTED_ITEMS;
    QuotedItems();
    AllowedMeans(TestType(Title, Eq, StringType));
    assert LowerAll("title") == "title";
  }

  /** A title with a quote in it can be asked for, but is printed as something that does not parse as that. */
  lemma QuotedTitleIsLost()
    ensures Parse("title = \"a\\\"b\"") == Some(QUOTED_TITLE) && Parse(FmtExpr(QUOTED_TITLE)) != Some(QUOTED_TITLE)
  {
    hide Parse, FmtExpr, TestOk, TestText, TestOf, QUOTED_TREE;
    var s := "a\"b";
    assert s[1] == '"';
    PrintParse(QUOTED_TITLE);
    QuotedTree();
    var text := "title = \"a\\\"b\"";
    var leaf := CLeaf(QUOTED_TREE);
    assert OneOk(leaf) && OneText(leaf) == text && OneOf(leaf) == QUOTED_TITLE;
    assert "" + ExprText(CSingle(leaf)) == text;
    assert Derives(text, "", CSingle(leaf), QUOTED_TITLE);
    ParserAcceptsGrammar(text, QUOTED_TITLE);
  }
}
