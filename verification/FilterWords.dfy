/** What the words of the filter language mean, from the text of a filter to the tracks it selects. */
module FilterWords {
  import opened Text
  import opened Filter
  import opened Printer
  import Grammar
  import opened GrammarProofs
  import opened RoundTrip
  import opened SqlLex
  import opened Sql
  import opened SqlCompile
  import opened SqlProofs

  // ----- characters and numbers -----

  const UPPER := "ABCDEFGHIJKLMNOPQRSTUVWXYZ"

  const LOWER := "abcdefghijklmnopqrstuvwxyz"

  const DIGITS := "0123456789"

  /** The characters that are blanks, letters and digits, and the lower case of each. */
  lemma CharacterClasses(c: char)
    ensures IsSpace(c) <==> c in [' ', '\t', '\n', 11 as char, 12 as char, '\r']
    ensures IsDigit(c) <==> c in DIGITS
    ensures IsAlnum(c) <==> c in UPPER || c in LOWER || c in DIGITS
    ensures c !in UPPER ==> Lower(c) == c
    ensures LowerAll(UPPER) == LOWER
  {
    hide UPPER, LOWER, DIGITS;
    UpperAre(c);
    LowerAre(c);
    DigitsAre(c);
    Lowered();
  }

  lemma UpperAre(c: char)
    ensures c in UPPER <==> 'A' <= c <= 'Z'
  {
    if 'A' <= c <= 'Z' { assert UPPER[(c - 'A') as int] == c; }
  }

  lemma LowerAre(c: char)
    ensures c in LOWER <==> 'a' <= c <= 'z'
  {
    if 'a' <= c <= 'z' { assert LOWER[(c - 'a') as int] == c; }
  }

  lemma DigitsAre(c: char)
    ensures c in DIGITS <==> '0' <= c <= '9'
  {
    if '0' <= c <= '9' { assert DIGITS[(c - '0') as int] == c; }
  }

  lemma Lowered()
    ensures LowerAll(UPPER) == LOWER
  {}

  /** Blanks in front of a filter do not matter. */
  lemma BlanksInFront(c: char, x: string)
    requires IsSpace(c)
    ensures Grammar.Parse([c] + x) == Grammar.Parse(x)
  {
    hide Blank, Grammar.ReadExpr, Grammar.ExprOf;
    var s := [c] + x;
    assert s[1..] == x;
    assert Blank(s) > 0;
    TrimSkip(s, 1);
  }

  /** Exactly one int differs from a number by a multiple of two to the power of 32. */
  lemma WrapExact(x: int, r: int)
    ensures Wrap32(x) == r <==> InInt(r) && (x - r) % 0x1_0000_0000 == 0
  {}

  lemma MultipleTimes(k: int, m: int)
    requires k % 0x1_0000_0000 == 0
    ensures (k * m) % 0x1_0000_0000 == 0
  {
    var q := k / 0x1_0000_0000;
    assert k == q * 0x1_0000_0000;
    assert k * m == (q * m) * 0x1_0000_0000;
    ModOfMultiple(q * m);
  }

  lemma ModOfMultiple(q: int)
    ensures (q * 0x1_0000_0000) % 0x1_0000_0000 == 0
  {}

  /** Wrapping around in between makes no difference. */
  lemma WrapTwice(a: int, d: int)
    ensures Wrap32(Wrap32(Wrap32(a) * 10) + d) == Wrap32(a * 10 + d)
  {
    hide Wrap32;
    var x := Wrap32(a);
    var y := Wrap32(x * 10);
    var z := Wrap32(y + d);
    WrapExact(a, x);
    WrapExact(x * 10, y);
    WrapExact(y + d, z);
    MultipleTimes(a - x, 10);
    assert a * 10 + d - z == (a - x) * 10 + (x * 10 - y) + (y + d - z);
    WrapExact(a * 10 + d, z);
  }

  /** A number of any length is read modulo two to the power of 32, as a signed number. */
  lemma {:induction false} BigNumber(s: string)
    requires AllDigits(s)
    ensures Grammar.NumValue(s) == Wrap32(DigitsValue(s))
  {
    hide Wrap32;
    if s == "" {
      WrapExact(0, 0);
    } else {
      BigNumber(s[..|s| - 1]);
      WrapTwice(DigitsValue(s[..|s| - 1]), DigitValue(s[|s| - 1]));
    }
  }

  // ----- tests -----

  /** The numbers that tests by name are about. */
  function NumberOf(name: string, row: TrackRow): Option<int>
  {
    if name == "duration" then Some(row.dur)
    else if name == "lastplay" then Some(row.lplay)
    else if name == "year" then Some(row.year)
    else if name == "pos" then Some(row.pos)
    else None
  }

  /** The texts. */
  function TextOf(name: string, row: TrackRow): Option<string>
  {
    if name == "title" then Some(row.title)
    else if name == "artist" then Some(row.artist)
    else if name == "album" then Some(row.album)
    else None
  }

  /** The ids. */
  function IdOf(name: string, row: TrackRow): Option<int>
  { if name == "artist" then Some(row.artistId) else if name == "album" then Some(row.albumId) else None }

  predicate Compares(sym: string, a: int, b: int)
  {
    || (sym == "=" && a == b) || (sym == "<" && a < b) || (sym == "<=" && a <= b)
    || (sym == ">" && a > b) || (sym == ">=" && a >= b)
  }

  /** The columns of the database that they are in. */
  function ColumnFor(name: string): string
  {
    if name == "duration" then "dur"
    else if name == "lastplay" then "lplay"
    else if name == "year" then "album_publish_year"
    else if name == "pos" then "album_pos"
    else if name == "title" then "title"
    else if name == "artist" then "artist_name"
    else "album_name"
  }

  /** A filter in one test is read as it is printed, and selects the tracks for which it holds. */
  lemma OneTest(t: Test, row: TrackRow, db: Db)
    requires AllowedTest(t) && PrintableValue(t.val) && t.field != Tag
    ensures Grammar.Parse(FmtTest(t)) == Some(Self(t))
    ensures Selects(ExprText(Self(t), db), row, db) == Some(TestHolds(t, row, db))
  {
    hide Grammar.Parse, AllowedTest, Selects, TestHolds, HasText, FmtTest;
    PrintParse(Self(t));
    ProperSelects(Self(t), row, db);
  }

  /** Comparing a number: every name, every comparison, every number. */
  lemma NumberWords(name: string, sym: string, n: int, row: TrackRow, db: Db)
    requires NumberOf(name, row).Some? && sym in {"=", "<", "<=", ">", ">="} && 0 <= n <= INT_MAX
    ensures var e := Grammar.Parse(name + " " + sym + " " + Dec(n));
      && e.Some? && Selects(ExprText(e.value, db), row, db) == Some(Compares(sym, NumberOf(name, row).value, n))
      && ExprText(e.value, db) == ColumnFor(name) + (" " + (sym + (" " + (
           if name == "year" then "'" + Pad4(n) + "'" else Dec(n)))))
  {
    hide Grammar.Parse, Allowed, Selects, Dec, TestText, Pad4;
    var f := if name == "duration" then Duration else if name == "lastplay" then LastPlay
             else if name == "year" then Year else Pos;
    var op := if sym == "=" then Eq else if sym == "<" then Lt else if sym == "<=" then Le else if sym == ">" then Gt
              else Ge;
    AllowedMeans(TestType(f, op, NumType));
    OneTest(Test(f, op, Num(n)), row, db);
    ScalarText(Test(f, op, Num(n)), db);
  }

  /** The field of a name for a text. */
  function TextField(name: string): Field
  { if name == "title" then Title else if name == "artist" then Artist else Album }

  lemma TextColumn(name: string, op: ValOp, s: string, db: Db)
    requires name in {"title", "artist", "album"} && (op == Eq || op == Re)
    ensures var t := Test(TextField(name), op, Str(s));
      && AllowedTest(t)
      && ExprText(Self(t), db) ==
           (if op == Eq then "lower" + ("(" + (ColumnFor(name) + ")")) else ColumnFor(name))
           + (" " + ((if op == Eq then "=" else "~*") + (" " + Quoted(s))))
  {
    hide Allowed, TestText, Quoted;
    AllowedMeans(TestType(TextField(name), op, StringType));
    ScalarText(Test(TextField(name), op, Str(s)), db);
  }

  lemma IdColumn(name: string, f: Field, n: int, db: Db)
    requires (name == "artist" && f == Artist) || (name == "album" && f == Album)
    ensures ExprText(Self(Test(f, Eq, Num(n))), db) == name + "_id" + (" " + ("=" + (" " + Dec(n))))
  {
    hide Allowed, TestText, Dec;
    AllowedMeans(TestType(f, Eq, NumType));
    ScalarText(Test(f, Eq, Num(n)), db);
  }

  lemma {:induction false} BodyLowers(s: string)
    ensures Grammar.BodyString(BodyOf(s)) == LowerAll(s)
  {
    if s != "" {
      BodyLowers(s[1..]);
      assert BodyOf(s)[1..] == BodyOf(s[1..]);
      assert LowerAll(s) == [Lower(s[0])] + LowerAll(s[1..]);
    }
  }

  /** A test on a string is read in any case; what was written is kept in lower case. */
  lemma StringTest(name: string, f: Field, op: ValOp, s: string)
    requires AllAlnum(name) && FieldOf(LowerAll(name)) == Some(f) && name != "" && Clean(s)
    requires AllowedTest(Test(f, op, Str(LowerAll(s))))
    ensures Grammar.Parse(name + " " + OpName(op) + " " + ("\"" + s + "\"")) ==
      Some(Self(Test(f, op, Str(LowerAll(s)))))
  {
    hide Grammar.Parse, Allowed, Clean, LowerAll, FieldOf, Grammar.OpOf, BodyOf, Grammar.BodyText, Grammar.BodyString;
    AllowedMeans(TestType(f, op, StringType));
    BodyLowers(s);
    BodyOfText(s);
    OpNameReads(op);
    var v := Grammar.CStr(BodyOf(s), "");
    var c := Grammar.CTest(name, " ", OpName(op), " ", Grammar.Scalar(v));
    assert Grammar.ValueText(v) == "\"" + s + "\"";
    assert name + " " + OpName(op) + " " + ("\"" + s + "\"") == Grammar.TestText(c);
    OneLeaf(c, Test(f, op, Str(LowerAll(s))));
  }

  lemma OneLeaf(c: Grammar.CTest, t: Test)
    requires Grammar.TestOk(c) && Grammar.TestOf(c) == t
    ensures Grammar.Parse(Grammar.TestText(c)) == Some(Self(t))
  {
    hide Grammar.Parse, Grammar.TestOk, Grammar.TestOf, Grammar.TestText;
    Spelled(Grammar.TestText(c), Grammar.CSingle(Grammar.CLeaf(c)), Self(t));
  }

  lemma TextFieldIs(name: string)
    requires name in {"title", "artist", "album"}
    ensures FieldOf(name) == Some(TextField(name))
  {}

  /** Comparing a text without regard to case. */
  lemma EqualWords(name: string, s: string, row: TrackRow, db: Db)
    requires AllAlnum(name) && TextOf(LowerAll(name), row).Some? && Clean(s)
    ensures var e := Grammar.Parse(name + " " + "=" + " " + ("\"" + s + "\""));
      && e.Some? && Selects(ExprText(e.value, db), row, db) == Some(SameText(TextOf(LowerAll(name), row).value, s))
      && ExprText(e.value, db) ==
           "lower" + ("(" + (ColumnFor(LowerAll(name)) + ")")) + (" " + ("=" + (" " + Quoted(LowerAll(s)))))
  {
    hide Grammar.Parse, AllowedTest, Selects, ExprText, Clean, Quoted, ColumnFor, LowerAll;
    LoweredTwice(s);
    TextFieldIs(LowerAll(name));
    var t := Test(TextField(LowerAll(name)), Eq, Str(LowerAll(s)));
    TextColumn(LowerAll(name), Eq, LowerAll(s), db);
    StringTest(name, t.field, Eq, s);
    TestSelects(t, row, db);
  }

  /** Matching a text with a regular expression. */
  lemma MatchWords(name: string, s: string, row: TrackRow, db: Db)
    requires AllAlnum(name) && TextOf(LowerAll(name), row).Some? && Clean(s)
    ensures var e := Grammar.Parse(name + " " + "~" + " " + ("\"" + s + "\""));
      && e.Some?
      && Selects(ExprText(e.value, db), row, db) == Some(db.matches(LowerAll(s), TextOf(LowerAll(name), row).value))
      && ExprText(e.value, db) == ColumnFor(LowerAll(name)) + (" " + ("~*" + (" " + Quoted(LowerAll(s)))))
  {
    hide Grammar.Parse, AllowedTest, Selects, ExprText, Clean, Quoted, ColumnFor, LowerAll;
    LoweredTwice(s);
    TextFieldIs(LowerAll(name));
    var t := Test(TextField(LowerAll(name)), Re, Str(LowerAll(s)));
    TextColumn(LowerAll(name), Re, LowerAll(s), db);
    StringTest(name, t.field, Re, s);
    TestSelects(t, row, db);
  }

  lemma LoweredTwice(s: string)
    ensures IsLowerCase(LowerAll(s)) && LowerAll(LowerAll(s)) == LowerAll(s)
  {}

  lemma TestSelects(t: Test, row: TrackRow, db: Db)
    requires AllowedTest(t) && AcceptedValue(t.val) && t.field != Tag
    ensures Selects(ExprText(Self(t), db), row, db) == Some(TestHolds(t, row, db))
  {
    hide AllowedTest, Selects, TestHolds, HasText;
    ProperSelects(Self(t), row, db);
  }

  /** An artist or an album by its id. */
  lemma IdWords(name: string, n: int, row: TrackRow, db: Db)
    requires IdOf(name, row).Some? && 0 <= n <= INT_MAX
    ensures var e := Grammar.Parse(name + " = " + Dec(n));
      && e.Some? && Selects(ExprText(e.value, db), row, db) == Some(IdOf(name, row).value == n)
      && ExprText(e.value, db) == name + "_id" + (" " + ("=" + (" " + Dec(n))))
  {
    hide Grammar.Parse, Allowed, Selects, Dec, ExprText;
    var f := if name == "artist" then Artist else Album;
    AllowedMeans(TestType(f, Eq, NumType));
    var t := Test(f, Eq, Num(n));
    OneTest(t, row, db);
    assert FmtTest(t) == name + " = " + Dec(n);
    IdColumn(name, f, n, db);
  }

  /** A filter in one test on tags: it is read as it is printed, and selects its tracks if it is proper. */
  lemma TagTest(t: Test, row: TrackRow, db: Db)
    requires AllowedTest(t) && PrintableValue(t.val) && t.field == Tag
    ensures Grammar.Parse(FmtTest(t)) == Some(Self(t)) && Accepted(Self(t))
    ensures Proper(Self(t), db) ==> Selects(ExprText(Self(t), db), row, db) == Some(TestHolds(t, row, db))
  {
    hide Grammar.Parse, AllowedTest, Selects, TestHolds, HasText, FmtTest, Brimful;
    PrintParse(Self(t));
    if Proper(Self(t), db) { ProperSelects(Self(t), row, db); }
  }

  /** The track carries a tag of this kind. */
  ghost predicate CarriesTag(row: TrackRow, db: Db, kind: TagRow -> bool)
  { exists tag :: tag in db.tags && kind(tag) && FileTag(row.id, tag.id) in db.fileTags }

  ghost predicate CarriesOne(v: Value, row: TrackRow, db: Db)
  {
    || (v.Num? && FileTag(row.id, v.n) in db.fileTags)
    || (v.Str? && CarriesTag(row, db, (tag: TagRow) => tag.name == v.s))
  }

  /** Tags by name and by expression. */
  lemma TagWords(s: string, row: TrackRow, db: Db)
    requires IsLowerCase(s) && Clean(s)
    ensures var e := Grammar.Parse("tag = \"" + s + "\"");
      && e.Some? && (Holds(e.value, row, db) <==> CarriesTag(row, db, (tag: TagRow) => tag.name == s))
      && (Proper(e.value, db) ==> Selects(ExprText(e.value, db), row, db) == Some(Holds(e.value, row, db)))
    ensures var e := Grammar.Parse("tag ~ \"" + s + "\"");
      && e.Some? && (Holds(e.value, row, db) <==> CarriesTag(row, db, (tag: TagRow) => db.matches(s, tag.name)))
      && (Proper(e.value, db) ==> Selects(ExprText(e.value, db), row, db) == Some(Holds(e.value, row, db)))
  {
    hide Grammar.Parse, Allowed, Selects, ExprText, Clean, Proper;
    AllowedMeans(TestType(Tag, Eq, StringType));
    AllowedMeans(TestType(Tag, Re, StringType));
    var eq, re := Test(Tag, Eq, Str(s)), Test(Tag, Re, Str(s));
    TagTest(eq, row, db);
    TagTest(re, row, db);
    assert FmtTest(eq) == "tag = \"" + s + "\"";
    assert FmtTest(re) == "tag ~ \"" + s + "\"";
  }

  /** Tags by number, and any of a list. */
  lemma TagListWords(n: int, vs: seq<Value>, row: TrackRow, db: Db)
    requires 0 <= n <= INT_MAX && PrintableValue(List(vs))
    ensures var e := Grammar.Parse("tag = " + Dec(n));
      e.Some? && (Holds(e.value, row, db) <==> FileTag(row.id, n) in db.fileTags)
    ensures var e := Grammar.Parse("tag IN " + FmtValue(List(vs)));
      && e.Some?
      && (Holds(e.value, row, db) <==> exists v :: v in vs && CarriesOne(v, row, db))
      && (Proper(e.value, db) ==> Selects(ExprText(e.value, db), row, db) == Some(Holds(e.value, row, db)))
  {
    hide Grammar.Parse, Allowed, Selects, ExprText, Proper, Dec, FmtValue;
    AllowedMeans(TestType(Tag, Eq, NumType));
    AllowedMeans(TestType(Tag, In, ListType));
    var eq, any := Test(Tag, Eq, Num(n)), Test(Tag, In, List(vs));
    TagTest(eq, row, db);
    TagTest(any, row, db);
    assert FmtTest(eq) == "tag = " + Dec(n) by { NumberIsDec(n); }
    assert FmtTest(any) == "tag IN " + FmtValue(List(vs));
    forall v | v in vs ensures Tagged(v, row, db) <==> CarriesOne(v, row, db) {}
  }

  lemma NumberIsDec(n: int)
    ensures FmtValue(Num(n)) == Dec(n)
  {}

  /** A list is printed with a comma and a blank between its values. */
  lemma {:induction false} PrintedList(vs: seq<Value>, v: Value)
    requires vs != []
    ensures FmtValue(List(vs + [v])) == FmtValue(List(vs)) + ", " + FmtValue(v)
  {
    hide FmtMore;
    var all := vs + [v];
    assert all[0] == vs[0] && all[1..] == vs[1..] + [v];
    PrintedMore(vs[1..], v);
    Cat3(FmtValue(vs[0]), FmtMore(vs[1..]), ", " + FmtValue(v));
    Cat3(FmtValue(vs[0]) + FmtMore(vs[1..]), ", ", FmtValue(v));
  }

  lemma {:induction false} PrintedMore(vs: seq<Value>, v: Value)
    ensures FmtMore(vs + [v]) == FmtMore(vs) + (", " + FmtValue(v))
  {
    hide FmtValue;
    if vs == [] {
      var one := [v];
      assert vs + [v] == one && one[1..] == [];
      assert FmtMore(one) == ", " + FmtValue(v) + FmtMore([]);
    } else {
      var all := vs + [v];
      assert all[0] == vs[0] && all[1..] == vs[1..] + [v];
      PrintedMore(vs[1..], v);
      Cat3(", " + FmtValue(vs[0]), FmtMore(vs[1..]), ", " + FmtValue(v));
    }
  }

  // ----- putting filters together -----

  lemma Enclosed(x: string, a: Expr) returns (c: Grammar.COne)
    requires Grammar.Parse(x) == Some(a)
    ensures Grammar.OneOk(c) && Grammar.OneText(c) == "(" + x + ")" && Grammar.OneOf(c) == a
  {
    hide Grammar.Parse, Grammar.ExprOk, Grammar.ExprText, Grammar.ExprOf;
    ParserAcceptsGrammar(x, a);
    var gap, t :| Grammar.Derives(x, gap, t, a);
    c := Grammar.CParen(gap, t, "");
    assert "(" + gap + Grammar.ExprText(t) + ")" + "" == "(" + (gap + Grammar.ExprText(t)) + ")";
  }

  lemma Spelled(text: string, t: Grammar.CExpr, e: Expr)
    requires Grammar.ExprOk(t) && Grammar.ExprText(t) == text && Grammar.ExprOf(t) == e
    ensures Grammar.Parse(text) == Some(e)
  {
    hide Grammar.Parse, Grammar.ExprOk, Grammar.ExprText, Grammar.ExprOf;
    assert "" + text == text;
    assert Grammar.Derives(text, "", t, e);
    ParserAcceptsGrammar(text, e);
  }

  /** Parentheses, negation, and the two connectives, around any filters; and how they are printed. */
  lemma Connectives(x: string, a: Expr, y: string, b: Expr, row: TrackRow, db: Db)
    requires Grammar.Parse(x) == Some(a) && Grammar.Parse(y) == Some(b)
    ensures Grammar.Parse("(" + x + ")") == Some(a)
    ensures var e := Grammar.Parse("!(" + x + ")"); e.Some? && (Holds(e.value, row, db) <==> !Holds(a, row, db))
    ensures var e := Grammar.Parse("(" + x + ")&(" + y + ")");
      e.Some? && (Holds(e.value, row, db) <==> Holds(a, row, db) && Holds(b, row, db))
    ensures var e := Grammar.Parse("(" + x + ")|(" + y + ")");
      e.Some? && (Holds(e.value, row, db) <==> Holds(a, row, db) || Holds(b, row, db))
    ensures FmtExpr(Not(a)) == "!( " + FmtExpr(a) + " )"
    ensures FmtExpr(And(a, b)) == "( " + FmtExpr(a) + " )&( " + FmtExpr(b) + " )"
    ensures FmtExpr(Or(a, b)) == "( " + FmtExpr(a) + " )|( " + FmtExpr(b) + " )"
  {
    hide Grammar.Parse;
    var l := Enclosed(x, a);
    var r := Enclosed(y, b);
    Spelled("(" + x + ")", Grammar.CSingle(l), a);
    Spelled("!(" + x + ")", Grammar.CSingle(Grammar.CNot("", l)), Not(a)) by {
      assert "!" + "" + ("(" + x + ")") == "!(" + x + ")";
    }
    Spelled("(" + x + ")&(" + y + ")", Grammar.CBin(l, false, "", r), And(a, b)) by {
      assert "(" + x + ")" + "&" + "" + ("(" + y + ")") == "(" + x + ")&(" + y + ")";
    }
    Spelled("(" + x + ")|(" + y + ")", Grammar.CBin(l, true, "", r), Or(a, b)) by {
      assert "(" + x + ")" + "|" + "" + ("(" + y + ")") == "(" + x + ")|(" + y + ")";
    }
  }
}
