/** Printing a filter and parsing the text gives the filter back, exactly for the printable ones. */
module RoundTrip {
  import opened Text
  import opened Filter
  import opened Grammar
  import opened GrammarProofs
  import opened Printer

  /** The printer does not escape: no quote, no two adjacent backslashes, no final backslash. */
  predicate Clean(s: string)
  {
    s != "" ==> s[0] != '"' && (s[0] == '\\' ==> |s| > 1 && s[1] != '\\') && Clean(s[1..])
  }

  predicate PrintableScalar(v: Value)
  {
    match v
    case Num(n) => 0 <= n <= INT_MAX
    case Str(s) => IsLowerCase(s) && Clean(s)
    case List(_) => false
  }

  predicate PrintableValue(v: Value)
  {
    if v.List? then v.vs != [] && forall i :: 0 <= i < |v.vs| ==> PrintableScalar(v.vs[i])
    else PrintableScalar(v)
  }

  predicate Printable(e: Expr)
  {
    match e
    case Self(t) => AllowedTest(t) && PrintableValue(t.val)
    case Not(x) => Printable(x)
    case And(a, b) => Printable(a) && Printable(b)
    case Or(a, b) => Printable(a) && Printable(b)
  }

  // ----- the syntax tree of printed text, followed by a gap -----

  function BodyOf(s: string): (items: seq<StrItem>)
    ensures |items| == |s|
  {
    if s == "" then [] else [if s[0] == '\\' then Lone else Plain(s[0])] + BodyOf(s[1..])
  }

  lemma {:induction false} BodyOfText(s: string)
    ensures BodyText(BodyOf(s)) == s
    ensures IsLowerCase(s) ==> BodyString(BodyOf(s)) == s
    ensures Clean(s) ==> BodyOk(BodyOf(s))
  {
    if s != "" {
      BodyOfText(s[1..]);
      assert BodyOf(s)[1..] == BodyOf(s[1..]);
      Split(s, 1);
      if |s| > 1 {
        assert BodyOf(s)[1] == BodyOf(s[1..])[0];
      }
    }
  }

  function CValueOf(v: Value, gap: string): CValue
  {
    match v
    case Num(n) => CNum(Dec(n) + gap)
    case Str(s) => CStr(BodyOf(s), gap)
    case List(_) => CNum(gap)
  }

  lemma CValueOfIs(v: Value, gap: string)
    requires PrintableScalar(v) && AllSpace(gap)
    ensures ValueOk(CValueOf(v, gap)) && ValueOf(CValueOf(v, gap)) == v
    ensures ValueText(CValueOf(v, gap)) == FmtValue(v) + gap
  {
    match v
    case Num(n) =>
      NumberReads(n);
      NumValueBlank(Digits(n), gap);
    case Str(s) =>
      BodyOfText(s);
  }

  lemma {:induction false} NumberReads(n: nat)
    requires n <= INT_MAX
    ensures NumValue(Digits(n)) == n
  {
    if n >= 10 {
      NumberReads(n / 10);
      assert Digits(n)[..|Digits(n)| - 1] == Digits(n / 10);
    } else {
      assert Digits(n)[..0] == "";
    }
  }

  /** The gap behind the first of several list items is empty: a comma follows. */
  function GapBefore(rest: seq<Value>, gap: string): string { if rest == [] then gap else "" }

  function CItemsOf(vs: seq<Value>, gap: string): (more: seq<CItem>)
    ensures |more| == |vs|
  {
    if vs == [] then [] else [CItem(" ", CValueOf(vs[0], GapBefore(vs[1..], gap)))] + CItemsOf(vs[1..], gap)
  }

  lemma {:induction false} CItemsOfIs(vs: seq<Value>, gap: string)
    requires (forall i :: 0 <= i < |vs| ==> PrintableScalar(vs[i])) && AllSpace(gap)
    ensures ItemsOk(CItemsOf(vs, gap)) && ItemsOf(CItemsOf(vs, gap)) == vs
    ensures vs != [] ==> ItemsText(CItemsOf(vs, gap)) == FmtMore(vs) + gap
  {
    if vs != [] {
      var more := CItemsOf(vs, gap);
      var g := GapBefore(vs[1..], gap);
      assert more[1..] == CItemsOf(vs[1..], gap);
      CItemsOfIs(vs[1..], gap);
      CValueOfIs(vs[0], g);
      ItemsJoin(vs, gap);
      assert ItemsOf(more) == [ValueOf(more[0].val)] + ItemsOf(more[1..]);
      var rest := ItemsText(more[1..]);
      calc {
        ItemsText(more);
        "," + " " + (FmtValue(vs[0]) + g) + rest;
        { assert "," + " " == ", "; Cat3(", ", FmtValue(vs[0]), g); Cat3(", " + FmtValue(vs[0]), g, rest); }
        ", " + FmtValue(vs[0]) + (g + rest);
        { Cat3(", " + FmtValue(vs[0]), FmtMore(vs[1..]), gap); }
        FmtMore(vs) + gap;
      }
    }
  }

  /** A gap only stands behind the last item. */
  lemma ItemsJoin(vs: seq<Value>, gap: string)
    requires vs != []
    requires |vs| > 1 ==> ItemsText(CItemsOf(vs[1..], gap)) == FmtMore(vs[1..]) + gap
    ensures GapBefore(vs[1..], gap) + ItemsText(CItemsOf(vs[1..], gap)) == FmtMore(vs[1..]) + gap
  {
    if |vs| == 1 {
      assert gap + "" == gap == "" + gap;
    } else {
      var t := ItemsText(CItemsOf(vs[1..], gap));
      assert "" + t == t;
    }
  }

  function COperandOf(v: Value, gap: string): COperand
  {
    if v.List? && v.vs != [] then Listed(CValueOf(v.vs[0], GapBefore(v.vs[1..], gap)), CItemsOf(v.vs[1..], gap))
    else Scalar(CValueOf(v, gap))
  }

  lemma COperandOfIs(v: Value, gap: string)
    requires PrintableValue(v) && AllSpace(gap)
    ensures OperandOk(COperandOf(v, gap)) && OperandOf(COperandOf(v, gap)) == v
    ensures OperandText(COperandOf(v, gap)) == FmtValue(v) + gap
  {
    match v
    case List(vs) =>
      var g := GapBefore(vs[1..], gap);
      CValueOfIs(vs[0], g);
      CItemsOfIs(vs[1..], gap);
      ItemsJoin(vs, gap);
      Cat3(FmtValue(vs[0]), g, ItemsText(CItemsOf(vs[1..], gap)));
      Cat3(FmtValue(vs[0]), FmtMore(vs[1..]), gap);
    case _ =>
      CValueOfIs(v, gap);
  }

  function CTestOf(t: Test, gap: string): CTest
  {
    CTest(FieldName(t.field), " ", OpName(t.op), " ", COperandOf(t.val, gap))
  }

  lemma OpNameReads(op: ValOp)
    requires op != NoOp
    ensures OpOf(OpName(op)) == op
  {}

  lemma FieldNameReads(f: Field)
    ensures AllAlnum(FieldName(f)) && LowerAll(FieldName(f)) == FieldName(f)
  {}

  lemma CTestOfIs(t: Test, gap: string)
    requires AllowedTest(t) && PrintableValue(t.val) && AllSpace(gap)
    ensures TestOk(CTestOf(t, gap)) && TestOf(CTestOf(t, gap)) == t
    ensures TestText(CTestOf(t, gap)) == FmtTest(t) + gap
  {
    hide Allowed, FieldOf, LowerAll, OpOf, OperandOk, OperandOf, OperandText, COperandOf, FmtValue;
    AllowedMeans(TestType(t.field, t.op, TypeOf(t.val)));
    COperandOfIs(t.val, gap);
    OpNameReads(t.op);
    FieldNameReads(t.field);
    FieldOfName(t.field);
    ListIsListed(t.val, gap);
    Cat3(FmtHead(t), FmtValue(t.val), gap);
  }

  lemma ListIsListed(v: Value, gap: string)
    requires PrintableValue(v)
    ensures COperandOf(v, gap).Listed? <==> v.List?
  {}


  function CExprOf(e: Expr, gap: string): CExpr
    decreases e, 0
  {
    match e
    case Self(t) => CSingle(CLeaf(CTestOf(t, gap)))
    case Not(x) => CSingle(CNot("", CParen(" ", CExprOf(x, " "), gap)))
    case And(a, b) => CBin(CParen(" ", CExprOf(a, " "), ""), false, "", CParen(" ", CExprOf(b, " "), gap))
    case Or(a, b) => CBin(CParen(" ", CExprOf(a, " "), ""), true, "", CParen(" ", CExprOf(b, " "), gap))
  }

  lemma {:induction false} CExprOfIs(e: Expr, gap: string)
    requires Printable(e) && AllSpace(gap)
    ensures ExprOk(CExprOf(e, gap)) && ExprOf(CExprOf(e, gap)) == e
    ensures ExprText(CExprOf(e, gap)) == FmtExpr(e) + gap
  {
    hide TestOk, TestOf, TestText, FmtTest, Printable;
    match e
    case Self(t) =>
      SelfPrintable(e);
      CTestOfIs(t, gap);
    case Not(x) =>
      SubPrintable(e);
      CExprOfIs(x, " ");
      var p := CParen(" ", CExprOf(x, " "), gap);
      assert OneOk(p) && OneOf(p) == x && OneText(p) == "(" + " " + (FmtExpr(x) + " ") + ")" + gap;
      NotText(FmtExpr(x), gap);
    case And(a, b) =>
      SubPrintable(e);
      CExprOfIs(a, " ");
      CExprOfIs(b, " ");
      PairText(FmtExpr(a), '&', FmtExpr(b), gap);
    case Or(a, b) =>
      SubPrintable(e);
      CExprOfIs(a, " ");
      CExprOfIs(b, " ");
      PairText(FmtExpr(a), '|', FmtExpr(b), gap);
  }

  lemma SelfPrintable(e: Expr)
    requires Printable(e) && e.Self?
    ensures AllowedTest(e.test) && PrintableValue(e.test.val)
  {}

  lemma SubPrintable(e: Expr)
    requires Printable(e)
    ensures e.Not? ==> Printable(e.e)
    ensures e.And? || e.Or? ==> Printable(e.a) && Printable(e.b)
  {}

  lemma NotText(x: string, gap: string)
    ensures "!" + "" + ("(" + " " + (x + " ") + ")" + gap) == "!( " + x + " )" + gap
  {}

  lemma PairText(x: string, c: char, y: string, gap: string)
    ensures ("(" + " " + (x + " ") + ")" + "") + [c] + "" + ("(" + " " + (y + " ") + ")" + gap)
      == "( " + x + " )" + [c] + "( " + y + " )" + gap
    ensures " )" + [c] + "( " == [' ', ')', c, '(', ' ']
    ensures "( " + x + " )" + [c] + "( " + y + " )" + gap == "( " + x + [' ', ')', c, '(', ' '] + y + " )" + gap
  {}

  // ----- the converse: characters of strings are accounted for -----

  /** All characters of all strings of a value or tree. */
  function ValueChars(v: Value): multiset<char>
  {
    match v
    case Num(_) => multiset{}
    case Str(s) => multiset(s)
    case List(vs) => MoreChars(vs)
  }

  function MoreChars(vs: seq<Value>): multiset<char>
  { if vs == [] then multiset{} else ValueChars(vs[0]) + MoreChars(vs[1..]) }

  function Chars(e: Expr): multiset<char>
  {
    match e
    case Self(t) => ValueChars(t.val)
    case Not(x) => Chars(x)
    case And(a, b) => Chars(a) + Chars(b)
    case Or(a, b) => Chars(a) + Chars(b)
  }

  predicate CleanValue(v: Value)
  {
    match v
    case Num(_) => true
    case Str(s) => Clean(s)
    case List(vs) => CleanMore(vs)
  }

  predicate CleanMore(vs: seq<Value>) { vs != [] ==> CleanValue(vs[0]) && CleanMore(vs[1..]) }

  predicate CleanAll(e: Expr)
  {
    match e
    case Self(t) => CleanValue(t.val)
    case Not(x) => CleanAll(x)
    case And(a, b) => CleanAll(a) && CleanAll(b)
    case Or(a, b) => CleanAll(a) && CleanAll(b)
  }

  /**
   Text that denotes strings with the given characters: minus signs agree, backslashes only grow, and if
   they do not grow then nothing was escaped.
   */
  ghost predicate Denotes(text: string, chars: multiset<char>, clean: bool)
  {
    && multiset(text)['-'] == chars['-']
    && multiset(text)['\\'] >= chars['\\']
    && (multiset(text)['\\'] == chars['\\'] ==> clean)
  }

  /** Text that prints strings with the given characters and so many negative numbers. */
  ghost predicate Prints(text: string, chars: multiset<char>, negatives: nat)
  {
    multiset(text)['-'] == chars['-'] + negatives && multiset(text)['\\'] == chars['\\']
  }

  lemma DenotesJoin(a: string, ca: multiset<char>, pa: bool, b: string, cb: multiset<char>, pb: bool)
    requires Denotes(a, ca, pa) && Denotes(b, cb, pb)
    ensures Denotes(a + b, ca + cb, pa && pb)
  {}

  lemma PrintsJoin(a: string, ca: multiset<char>, na: nat, b: string, cb: multiset<char>, nb: nat)
    requires Prints(a, ca, na) && Prints(b, cb, nb)
    ensures Prints(a + b, ca + cb, na + nb)
  {}

  /** Neither of the two characters of interest occurs. */
  predicate Neutral(s: string) { '-' !in s && '\\' !in s }

  lemma NeutralText(s: string)
    requires Neutral(s)
    ensures Denotes(s, multiset{}, true) && Prints(s, multiset{}, 0)
  {}

  /** Neutral text around other text does not change the account. */
  lemma DenotesAround(a: string, b: string, c: string, chars: multiset<char>, clean: bool)
    requires Neutral(a) && Neutral(c) && Denotes(b, chars, clean)
    ensures Denotes(a + b + c, chars, clean) && Denotes(a + b, chars, clean)
  {}

  lemma PrintsAround(a: string, b: string, c: string, chars: multiset<char>, negatives: nat)
    requires Neutral(a) && Neutral(c) && Prints(b, chars, negatives)
    ensures Prints(a + b + c, chars, negatives) && Prints(a + b, chars, negatives)
  {}

  lemma ItemDenotes(it: StrItem)
    requires ItemOk(it)
    ensures Denotes(ItemText(it), multiset([ItemChar(it)]), !it.Esc?)
  {}

  /** A body without escape pairs is clean. */
  lemma CleanBody(items: seq<StrItem>)
    requires BodyOk(items) && items != [] && !items[0].Esc? && Clean(BodyString(items[1..]))
    ensures Clean(BodyString(items))
  {
    var s, s' := BodyString(items), BodyString(items[1..]);
    assert s[1..] == s';
    assert items[0].Lone? ==> s'[0] == ItemChar(items[1]);
  }

  lemma BodyUnfolds(items: seq<StrItem>)
    requires items != []
    ensures var c, s := ItemChar(items[0]), BodyString(items[1..]);
      multiset(BodyString(items)) == multiset([c]) + multiset(s)
    ensures BodyText(items) == ItemText(items[0]) + BodyText(items[1..])
  {}

  lemma {:induction false} BodyDenotes(items: seq<StrItem>)
    requires BodyOk(items)
    ensures Denotes(BodyText(items), multiset(BodyString(items)), Clean(BodyString(items)))
  {
    hide Denotes, Clean, BodyString, BodyText;
    if items == [] {
      BodyEmpty();
    } else {
      var it, rest := items[0], items[1..];
      BodyDenotes(rest);
      ItemDenotes(it);
      BodyUnfolds(items);
      var p := !it.Esc? && Clean(BodyString(rest));
      DenotesJoin(ItemText(it), multiset([ItemChar(it)]), !it.Esc?,
                  BodyText(rest), multiset(BodyString(rest)), Clean(BodyString(rest)));
      if p { CleanBody(items); }
      DenotesLess(BodyText(items), multiset(BodyString(items)), p, Clean(BodyString(items)));
    }
  }

  lemma BodyEmpty()
    ensures Denotes(BodyText([]), multiset(BodyString([])), Clean(BodyString([])))
  {}

  lemma DenotesLess(text: string, chars: multiset<char>, p: bool, q: bool)
    requires Denotes(text, chars, p) && (p ==> q)
    ensures Denotes(text, chars, q)
  {}

  lemma ValueDenotes(v: CValue)
    requires ValueOk(v)
    ensures Denotes(ValueText(v), ValueChars(ValueOf(v)), CleanValue(ValueOf(v)))
  {
    hide Denotes, BodyOk, BodyText, BodyString, Clean;
    match v
    case CNum(t) => NeutralText(t);
    case CStr(items, gap) =>
      BodyDenotes(items);
      Cat4("\"", BodyText(items), "\"", gap);
      Cat3("\"" + BodyText(items), "\"", gap);
      DenotesAround("\"", BodyText(items), "\"" + gap, multiset(BodyString(items)), Clean(BodyString(items)));
  }

  lemma {:induction false} ItemsDenote(more: seq<CItem>)
    requires ItemsOk(more)
    ensures Denotes(ItemsText(more), MoreChars(ItemsOf(more)), CleanMore(ItemsOf(more)))
  {
    hide Denotes, ValueOk, ValueText, ValueOf, ValueChars, CleanValue;
    if more == [] {
      NeutralText("");
    } else {
      var CItem(gap, v) := more[0];
      var vs := ItemsOf(more);
      assert vs[1..] == ItemsOf(more[1..]);
      ItemsDenote(more[1..]);
      ValueDenotes(v);
      DenotesAround("," + gap, ValueText(v), "", ValueChars(vs[0]), CleanValue(vs[0]));
      DenotesJoin("," + gap + ValueText(v), ValueChars(vs[0]), CleanValue(vs[0]),
                  ItemsText(more[1..]), MoreChars(vs[1..]), CleanMore(vs[1..]));
    }
  }

  lemma ListedDenotes(x: CValue, more: seq<CItem>)
    requires ValueOk(x) && ItemsOk(more)
    ensures var vs := [ValueOf(x)] + ItemsOf(more);
      Denotes(ValueText(x) + ItemsText(more), MoreChars(vs), CleanMore(vs))
  {
    hide Denotes, ValueOk, ValueText, ValueOf, ValueChars, CleanValue, ItemsText, ItemsOk;
    assert ([ValueOf(x)] + ItemsOf(more))[1..] == ItemsOf(more);
    ValueDenotes(x);
    ItemsDenote(more);
    DenotesJoin(ValueText(x), ValueChars(ValueOf(x)), CleanValue(ValueOf(x)),
                ItemsText(more), MoreChars(ItemsOf(more)), CleanMore(ItemsOf(more)));
  }

  lemma HeadIsNeutral(t: CTest)
    requires TestOk(t)
    ensures Neutral(t.name + t.gap1 + t.op + t.gap2)
  {
    hide OperandOk, AllowedTest, FieldOf;
    assert Neutral(t.name) && Neutral(t.gap1) && Neutral(t.op) && Neutral(t.gap2);
  }

  lemma TestDenotes(t: CTest)
    requires TestOk(t)
    ensures Denotes(TestText(t), ValueChars(TestOf(t).val), CleanValue(TestOf(t).val))
  {
    hide Denotes, Neutral, ValueText, ItemsText, FieldOf, AllowedTest;
    hide ValueOf, ValueOk, ItemsOf, ItemsOk, MoreChars, CleanMore;
    HeadIsNeutral(t);
    EmptyIsNeutral();
    var val := TestOf(t).val;
    match t.val {
      case Scalar(x) =>
        ValueDenotes(x);
      case Listed(x, more) =>
        ListedDenotes(x, more);
    }
    DenotesAround(t.name + t.gap1 + t.op + t.gap2, OperandText(t.val), "", ValueChars(val), CleanValue(val));
  }

  lemma EmptyIsNeutral()
    ensures Neutral("")
  {}

  lemma {:induction false} OneDenotes(t: COne)
    requires OneOk(t)
    ensures Denotes(OneText(t), Chars(OneOf(t)), CleanAll(OneOf(t)))
    decreases t
  {
    hide Denotes, TestOk, TestText, TestOf;
    match t
    case CParen(g1, e, g2) =>
      ExprDenotes(e);
      Cat3("(" + g1 + ExprText(e), ")", g2);
      DenotesAround("(" + g1, ExprText(e), ")" + g2, Chars(ExprOf(e)), CleanAll(ExprOf(e)));
    case CNot(g, x) =>
      OneDenotes(x);
      DenotesAround("!" + g, OneText(x), "", Chars(OneOf(x)), CleanAll(OneOf(x)));
    case CLeaf(x) =>
      TestDenotes(x);
  }

  lemma PairChars(a: Expr, b: Expr)
    ensures Chars(And(a, b)) == Chars(Or(a, b)) == Chars(a) + Chars(b)
    ensures CleanAll(And(a, b)) == CleanAll(Or(a, b)) == (CleanAll(a) && CleanAll(b))
  {}

  lemma {:induction false} ExprDenotes(t: CExpr)
    requires ExprOk(t)
    ensures Denotes(ExprText(t), Chars(ExprOf(t)), CleanAll(ExprOf(t)))
    decreases t
  {
    hide Denotes, OneOk, OneText, OneOf, Chars, CleanAll;
    match t
    case CSingle(x) => OneDenotes(x);
    case CBin(l, or, g, r) =>
      OneDenotes(l);
      OneDenotes(r);
      Cat4(OneText(l), [OpChar(or)], g, OneText(r));
      Cat3([OpChar(or)], g, OneText(r));
      var c, p := Chars(OneOf(r)), CleanAll(OneOf(r));
      DenotesAround([OpChar(or)] + g, OneText(r), "", c, p);
      DenotesJoin(OneText(l), Chars(OneOf(l)), CleanAll(OneOf(l)), [OpChar(or)] + g + OneText(r), c, p);
      PairChars(OneOf(l), OneOf(r));
  }

  // ----- the same account for printed text -----

  function ValueNegatives(v: Value): nat
  {
    match v
    case Num(n) => if n < 0 then 1 else 0
    case Str(_) => 0
    case List(vs) => MoreNegatives(vs)
  }

  function MoreNegatives(vs: seq<Value>): nat
  { if vs == [] then 0 else ValueNegatives(vs[0]) + MoreNegatives(vs[1..]) }

  function Negatives(e: Expr): nat
  {
    match e
    case Self(t) => ValueNegatives(t.val)
    case Not(x) => Negatives(x)
    case And(a, b) => Negatives(a) + Negatives(b)
    case Or(a, b) => Negatives(a) + Negatives(b)
  }

  lemma {:induction false} ValuePrints(v: Value)
    ensures Prints(FmtValue(v), ValueChars(v), ValueNegatives(v))
    decreases v, 1
  {
    match v
    case Num(n) =>
      if n < 0 {
        NeutralText(Digits(-n));
        PrintsJoin("-", multiset{}, 1, Digits(-n), multiset{}, 0);
      } else {
        NeutralText(Digits(n));
      }
    case Str(s) =>
      PrintsAround("\"", s, "\"", multiset(s), 0);
    case List(vs) =>
      if vs != [] {
        ValuePrints(vs[0]);
        MorePrint(vs[1..]);
        PrintsJoin(FmtValue(vs[0]), ValueChars(vs[0]), ValueNegatives(vs[0]),
                   FmtMore(vs[1..]), MoreChars(vs[1..]), MoreNegatives(vs[1..]));
      }
  }

  lemma {:induction false} MorePrint(vs: seq<Value>)
    ensures Prints(FmtMore(vs), MoreChars(vs), MoreNegatives(vs))
    decreases vs, 0
  {
    if vs != [] {
      ValuePrints(vs[0]);
      MorePrint(vs[1..]);
      PrintsAround(", ", FmtValue(vs[0]), "", ValueChars(vs[0]), ValueNegatives(vs[0]));
      PrintsJoin(", " + FmtValue(vs[0]), ValueChars(vs[0]), ValueNegatives(vs[0]),
                 FmtMore(vs[1..]), MoreChars(vs[1..]), MoreNegatives(vs[1..]));
    }
  }

  lemma NamesAreNeutral(t: Test)
    ensures Neutral(FmtHead(t))
  {
    assert Neutral(FieldName(t.field)) && Neutral(OpName(t.op));
  }

  lemma {:induction false} ExprPrints(e: Expr)
    ensures Prints(FmtExpr(e), Chars(e), Negatives(e))
  {
    hide Prints, FmtHead, FmtValue;
    match e
    case Self(t) =>
      ValuePrints(t.val);
      NamesAreNeutral(t);
      PrintsAround(FmtHead(t), FmtValue(t.val), "", ValueChars(t.val), ValueNegatives(t.val));
    case Not(x) =>
      ExprPrints(x);
      PrintsAround("!( ", FmtExpr(x), " )", Chars(x), Negatives(x));
    case And(a, b) => PairPrints(e, a, " )&( ", b);
    case Or(a, b) => PairPrints(e, a, " )|( ", b);
  }

  lemma {:induction false} PairPrints(e: Expr, a: Expr, mid: string, b: Expr)
    requires a < e && b < e && Neutral(mid)
    ensures Prints("( " + FmtExpr(a) + mid + FmtExpr(b) + " )", Chars(a) + Chars(b), Negatives(a) + Negatives(b))
    decreases e, 0
  {
    hide Prints, FmtExpr, Chars, Negatives;
    ExprPrints(a);
    ExprPrints(b);
    var left, right := "( " + FmtExpr(a), mid + FmtExpr(b) + " )";
    PrintsAround("( ", FmtExpr(a), "", Chars(a), Negatives(a));
    PrintsAround(mid, FmtExpr(b), " )", Chars(b), Negatives(b));
    PrintsJoin(left, Chars(a), Negatives(a), right, Chars(b), Negatives(b));
    Cat4(left, mid, FmtExpr(b), " )");
    Cat3(mid, FmtExpr(b), " )");
  }

  // ----- main results -----

  lemma {:induction false} FlatIsPrintable(vs: seq<Value>, i: nat)
    requires i < |vs| && AcceptedScalar(vs[i]) && CleanMore(vs) && MoreNegatives(vs) == 0
    ensures PrintableScalar(vs[i])
  {
    if i > 0 { FlatIsPrintable(vs[1..], i - 1); }
  }

  lemma {:induction false} AcceptedIsPrintable(e: Expr)
    requires Accepted(e) && CleanAll(e) && Negatives(e) == 0
    ensures Printable(e)
  {
    match e
    case Self(t) =>
      if t.val.List? {
        forall i | 0 <= i < |t.val.vs| ensures PrintableScalar(t.val.vs[i]) {
          FlatIsPrintable(t.val.vs, i);
        }
      }
    case Not(x) => AcceptedIsPrintable(x);
    case And(a, b) => AcceptedIsPrintable(a); AcceptedIsPrintable(b);
    case Or(a, b) => AcceptedIsPrintable(a); AcceptedIsPrintable(b);
  }

  /** Parsing the printed text gives the filter back if and only if the filter is printable. */
  lemma PrintParse(e: Expr)
    ensures Parse(FmtExpr(e)) == Some(e) <==> Printable(e)
  {
    hide Parse, FmtExpr, Printable, Accepted, CleanAll, Chars, Negatives, ExprText, ExprOf, ExprOk;
    var text := FmtExpr(e);
    if Printable(e) {
      CExprOfIs(e, "");
      var t := CExprOf(e, "");
      assert text + "" == text == "" + text;
      assert Derives(text, "", t, e);
      ParserAcceptsGrammar(text, e);
    }
    if Parse(text) == Some(e) {
      ParserAcceptsGrammar(text, e);
      var gap, t :| Derives(text, gap, t, e);
      WellFormedIsAccepted(t);
      ExprDenotes(t);
      ExprPrints(e);
      DenotesAround(gap, ExprText(t), "", Chars(e), CleanAll(e));
      AcceptedIsPrintable(e);
    }
  }

  /** Reading a quoted but unescaped string gives it back if and only if it is lower case and clean. */
  lemma StringLiteral(s: string)
    ensures (exists items :: ReadBody(s + "\"") == Some((items, "")) && BodyString(items) == s)
      <==> IsLowerCase(s) && Clean(s)
  {
    hide ReadBody, BodyText, BodyString, Clean;
    if IsLowerCase(s) && Clean(s) {
      BodyOfText(s);
      BodyComplete(BodyOf(s), "");
      assert s + "\"" + "" == s + "\"";
    }
    if items :| ReadBody(s + "\"") == Some((items, "")) && BodyString(items) == s {
      BodySound(s + "\"");
      assert BodyText(items) == (s + "\"")[..|s|] == s;
      BodyDenotes(items);
    }
  }
}
