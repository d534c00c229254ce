/**
 The filter language as a grammar: concrete syntax trees that remember every character of the text,
 the text of a tree, the filter it denotes, and a recursive-descent reading of text into such trees.
 Whitespace belongs to the token in front of it.
 */
module Grammar {
  import opened Text
  import opened Filter

  // ----- string literals -----

  /** One character of a string body: an escape pair, a backslash that escapes nothing, or any other character. */
  datatype StrItem = Esc(c: char) | Lone | Plain(c: char)

  predicate ItemOk(it: StrItem)
  {
    match it
    case Esc(c) => c == '\\' || c == '"'
    case Lone => true
    case Plain(c) => c != '\\' && c != '"'
  }

  /** A lone backslash must be followed by a plain character. */
  predicate BodyOk(items: seq<StrItem>)
  {
    items != [] ==>
      && ItemOk(items[0])
      && (items[0].Lone? ==> |items| > 1 && items[1].Plain?)
      && BodyOk(items[1..])
  }

  function ItemText(it: StrItem): string
  {
    match it
    case Esc(c) => ['\\', c]
    case Lone => "\\"
    case Plain(c) => [c]
  }

  function ItemChar(it: StrItem): char { if it.Lone? then '\\' else Lower(it.c) }

  function BodyText(items: seq<StrItem>): string
  {
    if items == [] then "" else ItemText(items[0]) + BodyText(items[1..])
  }

  function BodyString(items: seq<StrItem>): (s: string)
    ensures |s| == |items| && IsLowerCase(s)
  {
    if items == [] then "" else [ItemChar(items[0])] + BodyString(items[1..])
  }

  // ----- values -----

  predicate NumChar(c: char) { IsDigit(c) || IsSpace(c) }

  predicate NumText(t: string) { forall i :: 0 <= i < |t| ==> NumChar(t[i]) }

  /** Digits may be separated, and are followed, by whitespace. */
  datatype CValue = CNum(text: string) | CStr(items: seq<StrItem>, gap: string)

  datatype CItem = CItem(gap: string, val: CValue)

  datatype COperand = Scalar(val: CValue) | Listed(first: CValue, more: seq<CItem>)

  predicate ValueOk(v: CValue)
  {
    match v
    case CNum(t) => t != "" && IsDigit(t[0]) && NumText(t)
    case CStr(items, gap) => BodyOk(items) && AllSpace(gap)
  }

  function ValueText(v: CValue): string
  {
    match v
    case CNum(t) => t
    case CStr(items, gap) => "\"" + BodyText(items) + "\"" + gap
  }

  /** What reading digits one by one into a C int yields. */
  function NumValue(t: string): (n: int)
    ensures InInt(n)
  {
    if t == "" then 0 else
      var n, c := NumValue(t[..|t|-1]), t[|t|-1];
      if IsDigit(c) then Wrap32(Wrap32(n * 10) + DigitValue(c)) else n
  }

  /** Blanks do not change the number read so far. */
  lemma {:induction false} NumValueBlank(t: string, w: string)
    requires AllSpace(w)
    ensures NumValue(t + w) == NumValue(t)
  {
    if w == "" {
      assert t + w == t;
    } else {
      var w' := w[..|w|-1];
      NumValueBlank(t, w');
      assert (t + w)[..|t + w|-1] == t + w';
      assert (t + w)[|t + w|-1] == w[|w|-1];
    }
  }

  function ValueOf(v: CValue): Value
  {
    match v
    case CNum(t) => Num(NumValue(t))
    case CStr(items, _) => Str(BodyString(items))
  }

  predicate ItemsOk(more: seq<CItem>)
  {
    more != [] ==> AllSpace(more[0].gap) && ValueOk(more[0].val) && ItemsOk(more[1..])
  }

  function ItemsText(more: seq<CItem>): string
  {
    if more == [] then "" else "," + more[0].gap + ValueText(more[0].val) + ItemsText(more[1..])
  }

  function ItemsOf(more: seq<CItem>): (vs: seq<Value>)
    ensures |vs| == |more|
    ensures forall i :: 0 <= i < |more| ==> vs[i] == ValueOf(more[i].val)
  {
    seq(|more|, i requires 0 <= i < |more| => ValueOf(more[i].val))
  }

  predicate OperandOk(v: COperand)
  {
    match v
    case Scalar(x) => ValueOk(x)
    case Listed(x, more) => ValueOk(x) && ItemsOk(more)
  }

  function OperandText(v: COperand): string
  {
    match v
    case Scalar(x) => ValueText(x)
    case Listed(x, more) => ValueText(x) + ItemsText(more)
  }

  function OperandOf(v: COperand): Value
  {
    match v
    case Scalar(x) => ValueOf(x)
    case Listed(x, more) => List([ValueOf(x)] + ItemsOf(more))
  }

  // ----- tests -----

  /** The operator a piece of text spells. */
  function OpOf(t: string): ValOp
  {
    if t == "=" then Eq
    else if t == "<" then Lt
    else if t == "<=" then Le
    else if t == ">" then Gt
    else if t == ">=" then Ge
    else if t == "~" then Re
    else if |t| == 2 && Lower(t[0]) == 'i' && Lower(t[1]) == 'n' then In
    else NoOp
  }

  datatype CTest = CTest(name: string, gap1: string, op: string, gap2: string, val: COperand)

  /** Names match in any case; a name must be separated from IN, which is spelt in letters, too. */
  predicate TestOk(t: CTest)
  {
    && t.name != "" && AllAlnum(t.name) && FieldOf(LowerAll(t.name)).Some?
    && AllSpace(t.gap1) && OpOf(t.op) != NoOp && AllSpace(t.gap2) && OperandOk(t.val)
    && (OpOf(t.op) == In <==> t.val.Listed?)
    && (OpOf(t.op) == In ==> t.gap1 != "")
    && AllowedTest(TestOf(t))
  }

  function TestText(t: CTest): string { t.name + t.gap1 + t.op + t.gap2 + OperandText(t.val) }

  function TestOf(t: CTest): Test
  {
    var f := FieldOf(LowerAll(t.name));
    Test(if f.Some? then f.value else NoField, OpOf(t.op), OperandOf(t.val))
  }

  // ----- expressions -----

  datatype COne = CParen(gap1: string, e: CExpr, gap2: string) | CNot(gap: string, one: COne) | CLeaf(test: CTest)

  /** Two operands at most: operators do not chain. */
  datatype CExpr = CSingle(one: COne) | CBin(l: COne, or: bool, gap: string, r: COne)

  predicate OneOk(t: COne)
  {
    match t
    case CParen(g1, e, g2) => AllSpace(g1) && ExprOk(e) && AllSpace(g2)
    case CNot(g, x) => AllSpace(g) && OneOk(x)
    case CLeaf(x) => TestOk(x)
  }

  predicate ExprOk(t: CExpr)
  {
    match t
    case CSingle(x) => OneOk(x)
    case CBin(l, _, g, r) => OneOk(l) && AllSpace(g) && OneOk(r)
  }

  function OneText(t: COne): string
  {
    match t
    case CParen(g1, e, g2) => "(" + g1 + ExprText(e) + ")" + g2
    case CNot(g, x) => "!" + g + OneText(x)
    case CLeaf(x) => TestText(x)
  }

  function OpChar(or: bool): char { if or then '|' else '&' }

  function ExprText(t: CExpr): string
  {
    match t
    case CSingle(x) => OneText(x)
    case CBin(l, or, g, r) => OneText(l) + [OpChar(or)] + g + OneText(r)
  }

  function OneOf(t: COne): Expr
  {
    match t
    case CParen(_, e, _) => ExprOf(e)
    case CNot(_, x) => Not(OneOf(x))
    case CLeaf(x) => Self(TestOf(x))
  }

  function ExprOf(t: CExpr): Expr
  {
    match t
    case CSingle(x) => OneOf(x)
    case CBin(l, or, _, r) => if or then Or(OneOf(l), OneOf(r)) else And(OneOf(l), OneOf(r))
  }

  /** The grammar: text s is a filter with meaning e when some well-formed tree says so. */
  ghost predicate Derives(s: string, gap: string, t: CExpr, e: Expr)
  {
    AllSpace(gap) && ExprOk(t) && s == gap + ExprText(t) && e == ExprOf(t)
  }

  // ----- reading text into trees; every function expects trimmed text -----

  function NumLen(s: string): (k: nat)
    ensures k <= |s| && (forall i :: 0 <= i < k ==> NumChar(s[i])) && (k < |s| ==> !NumChar(s[k]))
  {
    if s == "" || !NumChar(s[0]) then 0 else
      var k := NumLen(s[1..]);
      assert forall i :: 1 <= i < k + 1 ==> s[i] == s[1..][i-1];
      1 + k
  }

  /** Text that cannot continue a number ends it. */
  lemma {:induction false} NumExtent(t: string, rest: string)
    requires NumText(t) && (rest == "" || !NumChar(rest[0]))
    ensures NumLen(t + rest) == |t|
  {
    if t != "" {
      assert (t + rest)[1..] == t[1..] + rest;
      NumExtent(t[1..], rest);
    } else {
      assert t + rest == rest;
    }
  }

  function NameLen(s: string): (k: nat)
    ensures k <= |s| && AllAlnum(s[..k]) && (k < |s| ==> !IsAlnum(s[k]))
  {
    if s == "" || !IsAlnum(s[0]) then 0 else
      var k := NameLen(s[1..]);
      assert forall i :: 1 <= i < k + 1 ==> s[i] == s[1..][..k][i-1];
      1 + k
  }

  function FirstItem(s: string): StrItem
    requires s != ""
  {
    if s[0] != '\\' then Plain(s[0]) else if |s| > 1 && (s[1] == '\\' || s[1] == '"') then Esc(s[1]) else Lone
  }

  function ReadBody(s: string): (r: Option<(seq<StrItem>, string)>)
    ensures r.Some? ==> |r.value.1| < |s|
  {
    if s == "" then None
    else if s[0] == '"' then Some(([], s[1..]))
    else
      var it := FirstItem(s);
      match ReadBody(s[|ItemText(it)|..])
      case None => None
      case Some((items, rest)) => Some(([it] + items, rest))
  }

  function ReadValue(s: string): (r: Option<(CValue, string)>)
    ensures r.Some? ==> |r.value.1| < |s| && Trimmed(r.value.1)
  {
    if s == "" then None
    else if s[0] == '"' then
      match ReadBody(s[1..])
      case None => None
      case Some((items, rest)) => Some((CStr(items, rest[..Blank(rest)]), Trim(rest)))
    else if IsDigit(s[0]) then Some((CNum(s[..NumLen(s)]), s[NumLen(s)..]))
    else None
  }

  function ReadItems(s: string): (r: Option<(seq<CItem>, string)>)
    requires Trimmed(s)
    ensures r.Some? ==> |r.value.1| <= |s| && Trimmed(r.value.1)
    decreases |s|
  {
    if s == "" || s[0] != ',' then Some(([], s))
    else
      match ReadValue(Trim(s[1..]))
      case None => None
      case Some((v, rest)) =>
        match ReadItems(rest)
        case None => None
        case Some((more, rest')) => Some(([CItem(s[1..][..Blank(s[1..])], v)] + more, rest'))
  }

  function ReadOperand(list: bool, s: string): (r: Option<(COperand, string)>)
    ensures r.Some? ==> |r.value.1| < |s| && Trimmed(r.value.1)
  {
    match ReadValue(s)
    case None => None
    case Some((v, rest)) =>
      if !list then Some((Scalar(v), rest))
      else
        match ReadItems(rest)
        case None => None
        case Some((more, rest')) => Some((Listed(v, more), rest'))
  }

  /** Length of the operator at the start of the text; 0 if there is none. */
  function OpLen(s: string): (k: nat)
    ensures k <= |s|
  {
    if s == "" then 0
    else if s[0] == '<' || s[0] == '>' then if |s| > 1 && s[1] == '=' then 2 else 1
    else if s[0] == '=' || s[0] == '~' then 1
    else if |s| > 1 && Lower(s[0]) == 'i' && Lower(s[1]) == 'n' then 2
    else 0
  }

  function ReadTest(s: string): (r: Option<(CTest, string)>)
    ensures r.Some? ==> |r.value.1| < |s| && Trimmed(r.value.1)
  {
    var k := NameLen(s);
    var name, s1 := s[..k], s[k..];
    var s2 := Trim(s1);
    var o := OpLen(s2);
    if FieldOf(LowerAll(name)).None? || o == 0 then None
    else
      var op, s3 := s2[..o], s2[o..];
      match ReadOperand(OpOf(op) == In, Trim(s3))
      case None => None
      case Some((v, rest)) =>
        var t := CTest(name, s1[..Blank(s1)], op, s3[..Blank(s3)], v);
        if AllowedTest(TestOf(t)) then Some((t, rest)) else None
  }

  function ReadOne(s: string): (r: Option<(COne, string)>)
    ensures r.Some? ==> |r.value.1| < |s| && Trimmed(r.value.1)
    decreases |s|, 0
  {
    if s == "" || s[0] == ')' then None
    else if s[0] == '(' then
      match ReadExpr(Trim(s[1..]))
      case None => None
      case Some((e, s1)) =>
        if s1 == "" || s1[0] != ')' then None
        else Some((CParen(s[1..][..Blank(s[1..])], e, s1[1..][..Blank(s1[1..])]), Trim(s1[1..])))
    else if s[0] == '!' then
      match ReadOne(Trim(s[1..]))
      case None => None
      case Some((x, rest)) => Some((CNot(s[1..][..Blank(s[1..])], x), rest))
    else
      match ReadTest(s)
      case None => None
      case Some((t, rest)) => Some((CLeaf(t), rest))
  }

  function ReadExpr(s: string): (r: Option<(CExpr, string)>)
    ensures r.Some? ==> |r.value.1| < |s| && Trimmed(r.value.1)
    decreases |s|, 1
  {
    match ReadOne(s)
    case None => None
    case Some((a, s1)) =>
      if s1 == "" || s1[0] == ')' then Some((CSingle(a), s1))
      else if s1[0] != '|' && s1[0] != '&' then None
      else
        match ReadOne(Trim(s1[1..]))
        case None => None
        case Some((b, rest)) => Some((CBin(a, s1[0] == '|', s1[1..][..Blank(s1[1..])], b), rest))
  }

  /** The filter a whole text denotes. */
  function Parse(s: string): Option<Expr>
  {
    match ReadExpr(Trim(s))
    case Some((t, rest)) => if rest == "" then Some(ExprOf(t)) else None
    case None => None
  }
}
