/** Printing filters: the full text, and the printers that write it into a bounded buffer. */
module Printer {
  import opened Text
  import opened Filter
  import opened Buffer

  function FmtValue(v: Value): string
    decreases v, 1
  {
    match v
    case Num(n) => Dec(n)
    case Str(s) => "\"" + s + "\""
    case List(vs) => if vs == [] then "" else FmtValue(vs[0]) + FmtMore(vs[1..])
  }

  function FmtMore(vs: seq<Value>): string
    decreases vs, 0
  {
    if vs == [] then "" else ", " + FmtValue(vs[0]) + FmtMore(vs[1..])
  }

  function FmtHead(t: Test): string { FieldName(t.field) + " " + OpName(t.op) + " " }

  function FmtTest(t: Test): string { FmtHead(t) + FmtValue(t.val) }

  function FmtExpr(e: Expr): string
  {
    match e
    case Self(t) => FmtTest(t)
    case Not(x) => "!( " + FmtExpr(x) + " )"
    case And(a, b) => "( " + FmtExpr(a) + " )&( " + FmtExpr(b) + " )"
    case Or(a, b) => "( " + FmtExpr(a) + " )|( " + FmtExpr(b) + " )"
  }

  method ValueFmt(buf: array<char>, off: nat, len: nat, v: Value) returns (used: nat)
    requires off + len <= buf.Length
    modifies buf
    ensures buf[..] == Write(old(buf[..]), off, len, FmtValue(v))
    ensures Reports(used, len, FmtValue(v))
    decreases v
  {
    hide Write, Put, FmtMore, Dec;
    used := 0;
    match v
    case Num(n) =>
      used := Snprintf(buf, off, len, Dec(n));
    case Str(s) =>
      used := Snprintf(buf, off, len, "\"" + s + "\"");
    case List(vs) =>
      used := ListFmt(buf, off, len, vs);
  }

  method ListFmt(buf: array<char>, off: nat, len: nat, vs: seq<Value>) returns (used: nat)
    requires off + len <= buf.Length
    modifies buf
    ensures buf[..] == Write(old(buf[..]), off, len, FmtValue(List(vs)))
    ensures Reports(used, len, FmtValue(List(vs)))
    decreases vs
  {
    hide Write, Put, FmtMore, FmtValue, ListText;
    used := 0;
    ghost var b, full, text := buf[..], FmtValue(List(vs)), "";
    WriteNothing(b, off, len);
    ListTexts(vs, 0);
    for i := 0 to |vs|
      invariant used == |text| <= len && buf[..] == Write(b, off, len, text)
      invariant full == text + ListText(vs, i)
    {
      ListTexts(vs, i);
      ghost var fv, rest := FmtValue(vs[i]), ListText(vs, i + 1);
      if i > 0 {
        Step(b, off, len, text, ", ", fv + rest, full);
        var n := Snprintf(buf, off + used, len - used, ", ");
        used, text := used + n, text + ", ";
        if used > len { return; }
      }
      Step(b, off, len, text, fv, rest, full);
      var n := ValueFmt(buf, off + used, len - used, vs[i]);
      used, text := used + n, text + fv;
      if used > len { return; }
    }
    ListTexts(vs, |vs|);
    assert text + "" == text;
  }

  /** What is left of a list's text once its first i values are printed. */
  function ListText(vs: seq<Value>, i: nat): string
    requires i <= |vs|
  {
    if i == 0 then FmtValue(List(vs)) else FmtMore(vs[i..])
  }

  lemma ListTexts(vs: seq<Value>, i: nat)
    requires i <= |vs|
    ensures i == 0 ==> ListText(vs, i) == FmtValue(List(vs))
    ensures i == |vs| ==> ListText(vs, i) == ""
    ensures 0 < i < |vs| ==> ListText(vs, i) == ", " + (FmtValue(vs[i]) + ListText(vs, i + 1))
    ensures 0 == i < |vs| ==> ListText(vs, i) == FmtValue(vs[i]) + ListText(vs, i + 1)
  {
    if i < |vs| {
      assert vs[i..][0] == vs[i] && vs[i..][1..] == vs[i + 1..];
      Cat3(", ", FmtValue(vs[i]), FmtMore(vs[i + 1..]));
    }
  }

  method TestFmt(buf: array<char>, off: nat, len: nat, t: Test) returns (used: nat)
    requires off + len <= buf.Length
    modifies buf
    ensures buf[..] == Write(old(buf[..]), off, len, FmtTest(t))
    ensures Reports(used, len, FmtTest(t))
  {
    hide Write, Put, FmtValue;
    ghost var b, full, head, fv := buf[..], FmtTest(t), FmtHead(t), FmtValue(t.val);
    First(b, off, len, head, fv);
    used := Snprintf(buf, off, len, FmtHead(t));
    if used > len { return; }
    Step(b, off, len, head, fv, "", full);
    var n := ValueFmt(buf, off + used, len - used, t.val);
    used := used + n;
  }

  /**
   The printer never lets len - used underflow, leaves in the buffer exactly what fits of the full text,
   and reports the full length if that is at most len.
   */
  method ExprFmt(buf: array<char>, off: nat, len: nat, e: Expr) returns (used: nat)
    requires off + len <= buf.Length
    modifies buf
    ensures buf[..] == Write(old(buf[..]), off, len, FmtExpr(e))
    ensures Reports(used, len, FmtExpr(e))
    decreases e, 1
  {
    hide Write, Put, FmtTest;
    match e
    case Self(t) =>
      used := TestFmt(buf, off, len, t);
    case Not(x) =>
      ghost var b, full, fx := buf[..], FmtExpr(e), FmtExpr(x);
      Cat3("!( ", fx, " )");
      First(b, off, len, "!( ", fx + " )");
      used := Snprintf(buf, off, len, "!( ");
      if used > len { return; }
      Step(b, off, len, "!( ", fx, " )", full);
      var n := ExprFmt(buf, off + used, len - used, x);
      used := used + n;
      if used > len { return; }
      Step(b, off, len, "!( " + fx, " )", "", full);
      n := Snprintf(buf, off + used, len - used, " )");
      used := used + n;
    case And(x, y) =>
      used := PairFmt(buf, off, len, e, x, " )&( ", y);
    case Or(x, y) =>
      used := PairFmt(buf, off, len, e, x, " )|( ", y);
  }

  /** Both connectives print alike but for the text in the middle. */
  method PairFmt(buf: array<char>, off: nat, len: nat, ghost e: Expr, x: Expr, mid: string, y: Expr) returns (used: nat)
    requires off + len <= buf.Length && mid != "" && x < e && y < e
    modifies buf
    ensures var text := "( " + FmtExpr(x) + mid + FmtExpr(y) + " )";
      buf[..] == Write(old(buf[..]), off, len, text) && Reports(used, len, text)
    decreases e, 0
  {
    hide Write, Put, FmtExpr;
    ghost var b, fx, fy := buf[..], FmtExpr(x), FmtExpr(y);
    ghost var full := "( " + fx + mid + fy + " )";
    Cat5("( ", fx, mid, fy, " )");
    First(b, off, len, "( ", fx + (mid + (fy + " )")));
    used := Snprintf(buf, off, len, "( ");
    if used > len { return; }
    Step(b, off, len, "( ", fx, mid + (fy + " )"), full);
    var n := ExprFmt(buf, off + used, len - used, x);
    used := used + n;
    if used > len { return; }
    Step(b, off, len, "( " + fx, mid, fy + " )", full);
    n := Snprintf(buf, off + used, len - used, mid);
    used := used + n;
    if used > len { return; }
    Step(b, off, len, "( " + fx + mid, fy, " )", full);
    n := ExprFmt(buf, off + used, len - used, y);
    used := used + n;
    if used > len { return; }
    Step(b, off, len, "( " + fx + mid + fy, " )", "", full);
    n := Snprintf(buf, off + used, len - used, " )");
    used := used + n;
  }
}
