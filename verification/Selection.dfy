/** From the text of a filter to the tracks it selects. */
module Selection {
  import opened Text
  import opened Filter
  import opened Buffer
  import Grammar
  import GrammarProofs
  import opened Parser
  import opened SqlLex
  import opened Sql
  import opened SqlCompile
  import opened SqlProofs
  import opened SqlPrinter
  import opened SqlCut

  /** The clause as it is pasted into the query; without text there is none. */
  method WhereClause(e: Expr, db: Db) returns (clause: string)
    requires '\0' !in ExprText(e, db)
    ensures var text := ExprText(e, db); clause == if |text| < WHERE_LEN then text else text[..WHERE_LEN - 1]
  {
    hide CString, ExprText;
    var buf := new char[WHERE_LEN];
    buf[0] := '\0';
    ghost var b, text := buf[..], ExprText(e, db);
    var used := SqlExpr(buf, 0, WHERE_LEN, e, db);
    clause := CString(buf[..]);
    if text == "" {
      CStringEmpty(b);
    } else {
      var k := if |text| < WHERE_LEN then |text| else WHERE_LEN - 1;
      assert text[..|text|] == text;
      assert buf[..] == text[..k] + ['\0'] + b[k + 1..];
      CStringIs(text[..k], b[k + 1..]);
    }
  }

  lemma CStringEmpty(b: seq<char>)
    requires b != [] && b[0] == '\0'
    ensures CString(b) == ""
  {}

  /** The clause was cut off, but in a place where it can still be read. */
  predicate CutIsRead(e: Expr, db: Db)
  { InQuote(e, WHERE_LEN - 1).Some? || (BehindFirst(e, WHERE_LEN - 1, db) && Compiles(e.a, db)) }

  lemma CutIsError(e: Expr, db: Db)
    requires Accepted(e) && |ExprText(e, db)| >= WHERE_LEN
    ensures var cut := ExprText(e, db)[..WHERE_LEN - 1];
      cut != "" && (ReadCond(cut) == None <==> !CutIsRead(e, db))
  {
    hide ReadCond, ExprText, Accepted, Compiles;
    CutClause(e, db, WHERE_LEN - 1);
  }

  // ----- what a clause that was cut off selects -----

  /** What such a clause still says: the test with the front of its string, or the first operand. */
  function Remnant(e: Expr, db: Db): Expr
    requires CutIsRead(e, db)
  {
    match InQuote(e, WHERE_LEN - 1)
    case Some(i) => Self(e.test.(val := Str(e.test.val.s[..i])))
    case None => e.a
  }

  lemma RemnantCompiles(e: Expr, db: Db)
    requires Accepted(e) && CutIsRead(e, db)
    ensures Accepted(Remnant(e, db)) && Compiles(Remnant(e, db), db)
    ensures var i := InQuote(e, WHERE_LEN - 1);
      && i.Some?
      ==>
      ExprCond(Remnant(e, db), db) == CCompare(ColumnOf(e.test), SqlOp(e.test.op), OText(e.test.val.s[..i.value]))
  {
    hide Allowed, Half, Head, HasText, EntryOf;
  }

  /** The tracks for which the database is sure of what is left. */
  lemma CutSelects(e: Expr, row: TrackRow, db: Db)
    requires Accepted(e) && |ExprText(e, db)| >= WHERE_LEN
    ensures Selects(ExprText(e, db)[..WHERE_LEN - 1], row, db) ==
      if CutIsRead(e, db) then RemnantCompiles(e, db); Some(ExprTruth(Remnant(e, db), row, db) == Yes) else None
  {
    hide ReadCond, ExprText, Accepted, Compiles, Eval, ExprTruth, ExprCond, InQuote, Remnant;
    CutClause(e, db, WHERE_LEN - 1);
    if CutIsRead(e, db) {
      RemnantCompiles(e, db);
      RemnantIs(e, db);
      ExprEval(Remnant(e, db), row, db);
    }
  }

  lemma RemnantIs(e: Expr, db: Db)
    requires CutIsRead(e, db)
    ensures InQuote(e, WHERE_LEN - 1).None? ==> (e.And? || e.Or?) && Remnant(e, db) == e.a
  {}

  /** The name that a test on strings is about. */
  function NameOf(f: Field, row: TrackRow): string
  { if f == Title then row.title else if f == Artist then row.artist else row.album }

  lemma NamedTest(t: Test, row: TrackRow, db: Db)
    requires AllowedTest(t) && t.field != Tag && t.val.Str?
    ensures t.op == Eq || t.op == Re
    ensures TestHolds(t, row, db) <==>
      var name := NameOf(t.field, row);
      if t.op == Eq then SameText(name, t.val.s) else db.matches(t.val.s, name)
  {
    hide Allowed;
    AllowedMeans(TestType(t.field, t.op, TypeOf(t.val)));
  }

  function Called(name: string): TrackRow { TrackRow(0, 0, 0, 0, name, name, 0, name, 0, 0) }

  /**
   When that is right: never if the string is compared for equality; if the front of an expression matches what
   the expression matches; if the database is sure of the first operand for exactly the tracks that satisfy both,
   or either.
   */
  ghost predicate CutIsRight(e: Expr, db: Db)
    requires CutIsRead(e, db)
  {
    match InQuote(e, WHERE_LEN - 1)
    case Some(i) => e.test.op == Re && forall x :: db.matches(e.test.val.s[..i], x) <==> db.matches(e.test.val.s, x)
    case None => forall row :: ExprTruth(e.a, row, db) == Yes <==> Holds(e, row, db)
  }

  /** A cut string compares names with its front only. */
  lemma CutTestTruth(e: Expr, row: TrackRow, db: Db)
    requires Accepted(e) && InQuote(e, WHERE_LEN - 1).Some?
    ensures Compiles(Remnant(e, db), db) && (e.test.op == Eq || e.test.op == Re)
    ensures
      var name, s, front := NameOf(e.test.field, row), e.test.val.s, e.test.val.s[..InQuote(e, WHERE_LEN - 1).value];
      if e.test.op == Eq then
        && (ExprTruth(Remnant(e, db), row, db) == Yes <==> SameText(name, front))
        && (Holds(e, row, db) <==> SameText(name, s))
      else
        && (ExprTruth(Remnant(e, db), row, db) == Yes <==> db.matches(front, name))
        && (Holds(e, row, db) <==> db.matches(s, name))
  {
    hide AllowedTest, Half, Head, TestHolds, SameText, NameOf;
    RemnantCompiles(e, db);
    NamedTest(e.test, row, db);
    NamedTest(Remnant(e, db).test, row, db);
  }

  /** The track called like the front of the string is selected, and should not be. */
  lemma FrontSelectsWrong(e: Expr, db: Db)
    requires Accepted(e) && InQuote(e, WHERE_LEN - 1).Some? && e.test.op == Eq
    ensures var row := Called(e.test.val.s[..InQuote(e, WHERE_LEN - 1).value]);
      Compiles(Remnant(e, db), db) && ExprTruth(Remnant(e, db), row, db) == Yes && !Holds(e, row, db)
  {
    hide AllowedTest, Half, Head, TestHolds, ExprTruth, Holds, Remnant, Accepted;
    CutTestTruth(e, Called(e.test.val.s[..InQuote(e, WHERE_LEN - 1).value]), db);
  }

  /** The database is sure of what is left for exactly the tracks that satisfy the filter. */
  ghost predicate StillFaithful(e: Expr, db: Db)
    requires CutIsRead(e, db) && Compiles(Remnant(e, db), db)
  { forall row :: ExprTruth(Remnant(e, db), row, db) == Yes <==> Holds(e, row, db) }

  lemma CutStringRight(e: Expr, db: Db)
    requires Accepted(e) && InQuote(e, WHERE_LEN - 1).Some?
    ensures Compiles(Remnant(e, db), db) && (StillFaithful(e, db) <==> CutIsRight(e, db))
  {
    hide Half, Head, ExprTruth, Holds, Remnant, Accepted, SameText, Compiles;
    RemnantCompiles(e, db);
    CutTestTruth(e, Called(""), db);
    var s, front := e.test.val.s, e.test.val.s[..InQuote(e, WHERE_LEN - 1).value];
    if e.test.op == Eq {
      FrontSelectsWrong(e, db);
    } else if StillFaithful(e, db) {
      forall x ensures db.matches(front, x) <==> db.matches(s, x) { CutTestTruth(e, Called(x), db); }
    } else {
      var row :| ExprTruth(Remnant(e, db), row, db) == Yes <==> !Holds(e, row, db);
      CutTestTruth(e, row, db);
    }
  }

  lemma CutPairRight(e: Expr, db: Db)
    requires CutIsRead(e, db) && InQuote(e, WHERE_LEN - 1).None?
    ensures Compiles(Remnant(e, db), db) && (StillFaithful(e, db) <==> CutIsRight(e, db))
  {
    hide InQuote, ExprTruth, Holds;
  }

  /** The query selects exactly the tracks that satisfy the filter. */
  ghost predicate SelectsRight(clause: string, e: Expr, db: Db)
  { forall row :: Selects(clause, row, db) == Some(Holds(e, row, db)) }

  lemma WrongOnce(clause: string, row: TrackRow, e: Expr, db: Db)
    requires Selects(clause, row, db) == None
    ensures !SelectsRight(clause, e, db)
  {
    hide Selects, Holds;
    assert Selects(clause, row, db) != Some(Holds(e, row, db));
  }

  lemma StillSelects(e: Expr, db: Db)
    requires Accepted(e) && |ExprText(e, db)| >= WHERE_LEN && CutIsRead(e, db)
    ensures Compiles(Remnant(e, db), db)
    ensures SelectsRight(ExprText(e, db)[..WHERE_LEN - 1], e, db) <==> StillFaithful(e, db)
  {
    hide ReadCond, ExprText, Accepted, Compiles, ExprTruth, Holds, InQuote, Remnant, Selects, CutIsRead;
    RemnantCompiles(e, db);
    var cut, r := ExprText(e, db)[..WHERE_LEN - 1], Remnant(e, db);
    forall row ensures Selects(cut, row, db) == Some(ExprTruth(r, row, db) == Yes) { CutSelects(e, row, db); }
  }

  /** A clause that was cut off selects exactly the tracks that satisfy the filter only so. */
  lemma CutMeaning(e: Expr, db: Db)
    requires Accepted(e) && |ExprText(e, db)| >= WHERE_LEN
    ensures SelectsRight(ExprText(e, db)[..WHERE_LEN - 1], e, db) <==> CutIsRead(e, db) && CutIsRight(e, db)
  {
    hide ExprText, Accepted, InQuote, Selects, CutIsRead, CutIsRight, StillFaithful, SelectsRight;
    if !CutIsRead(e, db) {
      CutSelects(e, Called(""), db);
      WrongOnce(ExprText(e, db)[..WHERE_LEN - 1], Called(""), e, db);
    } else {
      StillSelects(e, db);
      if InQuote(e, WHERE_LEN - 1).Some? { CutStringRight(e, db); } else { CutPairRight(e, db); }
    }
  }

  lemma TitleHead(s: string)
    ensures |Head(Test(Title, Eq, Str(s)))| == 15
  {}

  /** A title that ends in a quote, of just the length that the quote's second copy is cut off: another is found. */
  lemma LongTitleSelectsWrong(front: string, db: Db)
    requires IsLowerCase(front) && '\'' !in front && |front| == WHERE_LEN - 18
    ensures var e := Self(Test(Title, Eq, Str(front + "'")));
      && Accepted(e) && |ExprText(e, db)| >= WHERE_LEN && !Holds(e, Called(front), db)
      && Selects(ExprText(e, db)[..WHERE_LEN - 1], Called(front), db) == Some(true)
  {
    hide Allowed, Half, Head, Escape, Selects, ExprTruth, Remnant, TestText;
    var s := front + "'";
    var t := Test(Title, Eq, Str(s));
    AllowedMeans(TestType(Title, Eq, StringType));
    TitleHead(s);
    ScalarSplit(t, db);
    EscapeLength(front);
    EscapeLength(s);
    assert s[|front|] == '\'' && s[..|front|] == front;
    HalfMeans(s, WHERE_LEN - 17, |front|);
    CutSelects(Self(t), Called(front), db);
    FrontSelectsWrong(Self(t), db);
  }

  /**
   A filter is given as text and compiled into a clause. If that fits its buffer, the query selects exactly the
   tracks that satisfy the filter if and only if its tests compile and the database is sure of the filter. If it
   does not, the query is an error, unless the cut can be read, and then it is right in few cases.
   */
  method SelectByText(text: string, db: Db) returns (e: Option<Expr>, clause: string)
    requires Grammar.Parse(text).Some? ==> '\0' !in ExprText(Grammar.Parse(text).value, db)
    ensures e == Grammar.Parse(text)
    ensures e.Some? && |ExprText(e.value, db)| < WHERE_LEN ==>
      (SelectsRight(clause, e.value, db) <==> Compiles(e.value, db) && Faithful(e.value, db))
    ensures e.Some? && Proper(e.value, db) && |ExprText(e.value, db)| < WHERE_LEN ==> SelectsRight(clause, e.value, db)
    ensures e.Some? && |ExprText(e.value, db)| >= WHERE_LEN && !CutIsRead(e.value, db) ==>
      forall row :: Selects(clause, row, db) == None
    ensures e.Some? && |ExprText(e.value, db)| >= WHERE_LEN ==>
      (SelectsRight(clause, e.value, db) <==> CutIsRead(e.value, db) && CutIsRight(e.value, db))
  {
    hide Grammar.Parse, ExprText, Proper, Compiles, Faithful, Holds, ReadCond, Accepted, CutIsRead, CutIsRight;
    var col, why;
    e, col, why := ExprParseStr(text);
    clause := "";
    if e.Some? {
      GrammarProofs.ParsedIsAccepted(text);
      clause := WhereClause(e.value, db);
      if |ExprText(e.value, db)| < WHERE_LEN {
        CompiledMeaning(e.value, db);
        if Proper(e.value, db) {
          forall row { ProperSelects(e.value, row, db); }
        }
      } else {
        CutIsError(e.value, db);
        CutMeaning(e.value, db);
      }
    }
  }
}
