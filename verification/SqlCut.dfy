/** Clauses that do not fit their buffer: what a query makes of a clause that was cut off. */
module SqlCut {
  import opened Text
  import opened Filter
  import opened SqlLex
  import opened Sql
  import opened SqlCompile
  import opened SqlProofs
  import SaveLoad

  // ----- the depth of parentheses outside literals, character by character -----

  datatype Level = Level(depth: int, open: bool)

  const GROUND := Level(0, false)

  function Next(l: Level, c: char): Level
  {
    if c == '\'' then l.(open := !l.open)
    else if l.open then l
    else if c == '(' then l.(depth := l.depth + 1)
    else if c == ')' then l.(depth := l.depth - 1)
    else l
  }

  function Run(l: Level, s: string): Level
    decreases s
  { if s == "" then l else Run(Next(l, s[0]), s[1..]) }

  lemma {:induction false} RunCat(l: Level, a: string, b: string)
    ensures Run(l, a + b) == Run(Run(l, a), b)
    decreases a
  {
    if a == "" {
      assert a + b == b;
    } else {
      assert (a + b)[1..] == a[1..] + b;
      RunCat(Next(l, a[0]), a[1..], b);
    }
  }

  lemma {:induction false} RunShift(d: int, l: Level, s: string)
    ensures Run(l.(depth := l.depth + d), s) == Run(l, s).(depth := Run(l, s).depth + d)
    decreases s
  {
    if s != "" { RunShift(d, Next(l, s[0]), s[1..]); }
  }

  predicate Flat(s: string) { forall i :: 0 <= i < |s| ==> s[i] != '\'' && s[i] != '(' && s[i] != ')' }

  lemma {:induction false} RunFlat(l: Level, s: string)
    requires Flat(s)
    ensures Run(l, s) == l
  {
    if s != "" { RunFlat(l, s[1..]); }
  }

  // ----- the same for tokens -----

  function Weigh(t: Tok): int { if t == Sym("(") then 1 else if t == Sym(")") then -1 else 0 }

  function Depth(ts: seq<Tok>): int { if ts == [] then 0 else Weigh(ts[0]) + Depth(ts[1..]) }

  predicate Clean(ts: seq<Tok>) { Bad !in ts }

  lemma {:induction false} DepthCat(a: seq<Tok>, b: seq<Tok>)
    ensures Depth(a + b) == Depth(a) + Depth(b)
  {
    if a == [] {
      assert a + b == b;
    } else {
      assert (a + b)[1..] == a[1..] + b;
      DepthCat(a[1..], b);
    }
  }

  lemma {:induction false} LiteralLevel(d: int, s: string)
    requires ReadLiteral(s).Some?
    ensures Run(Level(d, true), s) == Run(Level(d, false), ReadLiteral(s).value.1)
  {
    if s[0] == '\'' && (|s| == 1 || s[1] != '\'') {
    } else if s[0] == '\'' {
      assert s[1..][1..] == s[2..] && s[1..][0] == s[1];
      LiteralLevel(d, s[2..]);
    } else {
      LiteralLevel(d, s[1..]);
    }
  }

  lemma {:induction false} WordIsFlat(s: string)
    ensures Flat(s[..WordLen(s)])
  {
    if s != "" && WordChar(s[0]) {
      WordIsFlat(s[1..]);
      var k := WordLen(s);
      assert s[..k] == [s[0]] + s[1..][..k - 1];
    }
  }

  /** One token: its characters move the level as it weighs. */
  lemma Piece(l: Level, s: string, k: nat, t: Tok)
    requires k <= |s| && !l.open
    requires (Flat(s[..k]) && Weigh(t) == 0) || (k == 1 && t == Sym(s[..1]) && s[0] != '\'')
    ensures Run(l, s) == Run(l.(depth := l.depth + Weigh(t)), s[k..])
  {
    Split(s, k);
    RunCat(l, s[..k], s[k..]);
    if Flat(s[..k]) && Weigh(t) == 0 {
      RunFlat(l, s[..k]);
    } else {
      assert s[..1][1..] == "";
      assert s[..1] == "(" <==> s[0] == '(';
      assert s[..1] == ")" <==> s[0] == ')';
    }
  }

  lemma BlankOrQuote(s: string)
    requires s != ""
    ensures IsSpace(s[0]) ==> Lex(s) == Lex(s[1..])
    ensures s[0] == '\'' ==> Lex(s) == match ReadLiteral(s[1..])
      case None => [Bad]
      case Some((lit, rest)) => [Lit(lit)] + Lex(rest)
  {
    hide WordLen, DigitLen, ReadLiteral, SymLen, DigitsValue;
  }

  /** A text whose tokens are all good ends outside literals, as deep as they weigh. */
  lemma {:induction false} LexLevel(d: int, s: string)
    requires Clean(Lex(s))
    ensures Run(Level(d, false), s) == Level(d + Depth(Lex(s)), false)
    decreases |s|
  {
    hide Lex, ReadLiteral, Depth;
    if s == "" {
      LexNothing();
      NoTokens();
    } else {
      BlankOrQuote(s);
      if IsSpace(s[0]) {
        LexLevel(d, s[1..]);
      } else if s[0] == '\'' {
        QuoteLevel(s);
        var r := ReadLiteral(s[1..]).value;
        LiteralLevel(d, s[1..]);
        FirstToken(s, Lit(r.0), r.1);
        LexLevel(d, r.1);
      } else {
        var t, k := TokenAt(s);
        FirstToken(s, t, s[k..]);
        Piece(Level(d, false), s, k, t);
        LexLevel(d + Weigh(t), s[k..]);
      }
    }
  }

  lemma QuoteLevel(s: string)
    requires s != "" && s[0] == '\'' && Clean(Lex(s))
    ensures ReadLiteral(s[1..]).Some?
  {
    hide Lex, ReadLiteral;
    BlankOrQuote(s);
    assert [Bad][0] == Bad;
  }

  lemma FirstToken(s: string, t: Tok, rest: string)
    requires Lex(s) == [t] + Lex(rest) && Clean(Lex(s))
    ensures Clean(Lex(rest)) && Depth(Lex(s)) == Weigh(t) + Depth(Lex(rest))
  {
    hide Lex;
    assert Lex(s)[1..] == Lex(rest);
    assert forall x :: x in Lex(rest) ==> x in Lex(s);
  }

  lemma WordToken(s: string)
    requires s != "" && !IsSpace(s[0]) && IsAlpha(s[0])
    ensures var k := WordLen(s); 0 < k && Lex(s) == [Word(s[..k])] + Lex(s[k..])
  {
    hide DigitLen, ReadLiteral, SymLen, DigitsValue;
  }

  lemma NumberToken(s: string)
    requires s != "" && IsDigit(s[0])
    ensures var k := DigitLen(s); 0 < k && Lex(s) == [Int(DigitsValue(s[..k]))] + Lex(s[k..])
  {
    hide WordLen, ReadLiteral, SymLen, DigitsValue;
  }

  lemma NegativeToken(s: string)
    requires |s| > 1 && s[0] == '-' && IsDigit(s[1])
    ensures var k := DigitLen(s[1..]); Lex(s) == [Int(0 - DigitsValue(s[1..][..k]) as int)] + Lex(s[k + 1..])
  {
    hide WordLen, ReadLiteral, SymLen, DigitsValue;
    var k := DigitLen(s[1..]);
    assert s[1..][k..] == s[k + 1..];
  }

  /** Anything else is an operator, or no token. */
  predicate Other(s: string)
  {
    && s != "" && !IsSpace(s[0]) && !IsAlpha(s[0]) && !IsDigit(s[0]) && s[0] != '\''
    && !(s[0] == '-' && |s| > 1 && IsDigit(s[1]))
  }

  lemma OtherToken(s: string)
    requires Other(s)
    ensures Lex(s) == if SymLen(s) > 0 then [Sym(s[..SymLen(s)])] + Lex(s[SymLen(s)..]) else [Bad] + Lex(s[1..])
  {
    hide WordLen, DigitLen, ReadLiteral, SymLen, DigitsValue;
  }

  lemma SymbolIsShort(s: string)
    requires SymLen(s) > 1
    ensures SymLen(s) == 2 && Flat(s[..2]) && Weigh(Sym(s[..2])) == 0
  {}

  lemma DigitsAreFlat(s: string)
    requires AllDigits(s)
    ensures Flat(s) && Flat("-" + s)
  {}

  /** The token at the start of a text that is not blank or a literal, and its length. */
  lemma TokenAt(s: string) returns (t: Tok, k: nat)
    requires s != "" && !IsSpace(s[0]) && s[0] != '\'' && Clean(Lex(s))
    ensures 0 < k <= |s| && Lex(s) == [t] + Lex(s[k..])
    ensures (Flat(s[..k]) && Weigh(t) == 0) || (k == 1 && t == Sym(s[..1]))
  {
    hide Lex, WordLen, DigitLen, SymLen, DigitsValue, Flat, AllDigits;
    if IsAlpha(s[0]) {
      WordIsFlat(s);
      WordToken(s);
      t, k := Word(s[..WordLen(s)]), WordLen(s);
    } else if IsDigit(s[0]) {
      k := DigitLen(s);
      DigitsAreFlat(s[..k]);
      NumberToken(s);
      t := Int(DigitsValue(s[..k]));
    } else if s[0] == '-' && |s| > 1 && IsDigit(s[1]) {
      var n := DigitLen(s[1..]);
      DigitsAreFlat(s[1..][..n]);
      NegativeToken(s);
      assert s[..n + 1] == "-" + s[1..][..n];
      t, k := Int(0 - DigitsValue(s[1..][..n]) as int), n + 1;
    } else {
      OtherToken(s);
      BadIsThere(s);
      k := SymLen(s);
      t := Sym(s[..k]);
      if k > 1 { SymbolIsShort(s); }
    }
  }

  lemma BadIsThere(s: string)
    requires Other(s) && Clean(Lex(s))
    ensures SymLen(s) > 0
  {
    hide Lex, SymLen;
    OtherToken(s);
    var rest := Lex(s[1..]);
    assert ([Bad] + rest)[0] == Bad;
  }

  // ----- whatever is read as a condition is balanced -----

  predicate Balanced(ts: seq<Tok>, rest: seq<Tok>) { Depth(ts) == Depth(rest) && (Clean(rest) ==> Clean(ts)) }

  /** Dropping balanced tokens. */
  lemma Dropped(ts: seq<Tok>, k: nat)
    requires k <= |ts| && Depth(ts[..k]) == 0 && Clean(ts[..k])
    ensures Balanced(ts, ts[k..])
  {
    assert ts == ts[..k] + ts[k..];
    DepthCat(ts[..k], ts[k..]);
  }

  lemma DepthOne(t: Tok)
    ensures Depth([t]) == Weigh(t)
  {
    assert [t][1..] == [];
  }

  lemma {:induction false} IntsBalanced(ts: seq<Tok>)
    ensures var r := ReadInts(ts);
      r.Some? ==> Depth(ts) == Depth(r.value.1) - 1 && (Clean(r.value.1) ==> Clean(ts))
  {
    var r := ReadInts(ts);
    if r.Some? {
      var head := ts[..2];
      assert head == [ts[0], ts[1]] && ts == head + ts[2..];
      DepthCat(head, ts[2..]);
      assert head[1..] == [ts[1]];
      DepthOne(ts[1]);
      if ts[1] != Sym(")") { IntsBalanced(ts[2..]); }
    }
  }

  lemma RhsBalanced(ts: seq<Tok>)
    requires ReadRhs(ts).Some?
    ensures Balanced(ts, ts[2..])
  {
    var head := ts[..2];
    assert head == [ts[0], ts[1]] && head[1..] == [ts[1]];
    DepthOne(ts[1]);
    Dropped(ts, 2);
  }

  lemma InBalanced(ts: seq<Tok>)
    requires |ts| >= 2 && ts[0] == Word("IN") && ts[1] == Sym("(") && ReadInts(ts[2..]).Some?
    ensures Balanced(ts, ReadInts(ts[2..]).value.1)
  {
    hide ReadInts, Depth, Clean;
    IntsBalanced(ts[2..]);
    var head := ts[..2];
    assert head == [ts[0]] + [ts[1]] && ts == head + ts[2..];
    DepthOne(ts[0]);
    DepthOne(ts[1]);
    DepthCat([ts[0]], [ts[1]]);
    DepthCat(head, ts[2..]);
    CleanCat(head, ts[2..]);
    assert Clean(head) by { InIsClean(head); }
  }

  lemma InIsClean(head: seq<Tok>)
    requires head == [Word("IN")] + [Sym("(")]
    ensures Clean(head)
  {}

  lemma TestBalanced(ts: seq<Tok>)
    requires ReadTest(ts).Some?
    ensures Balanced(ts, ReadTest(ts).value.1)
  {
    hide ReadInts, ReadRhs, Depth, Clean;
    var lower := |ts| > 3 && ts[0] == Word("lower") && ts[1] == Sym("(") && ts[2].Word? && ts[3] == Sym(")");
    var k := if lower then 4 else 1;
    ColumnBalanced(ts, k, lower);
    var rest := ts[k..];
    if rest[0] == Word("IN") && rest[1] == Sym("(") {
      InBalanced(rest);
    } else {
      RhsBalanced(rest);
    }
  }

  lemma ColumnBalanced(ts: seq<Tok>, k: nat, lower: bool)
    requires k <= |ts| && k == (if lower then 4 else 1) && ts[0].Word?
    requires lower ==> ts[1] == Sym("(") && ts[2].Word? && ts[3] == Sym(")")
    ensures Balanced(ts, ts[k..])
  {
    if lower {
      var head := ts[..4];
      assert head == [ts[0], ts[1]] + [ts[2], ts[3]];
      DepthCat([ts[0], ts[1]], [ts[2], ts[3]]);
      assert [ts[0], ts[1]][1..] == [ts[1]] && [ts[2], ts[3]][1..] == [ts[3]];
      DepthOne(ts[1]);
      DepthOne(ts[3]);
    } else {
      assert ts[..1] == [ts[0]];
      DepthOne(ts[0]);
    }
    Dropped(ts, k);
  }

  lemma NullBalanced(ts: seq<Tok>)
    requires NULL_TOKS <= ts && ReadNull(ts).Some?
    ensures Balanced(ts, ReadNull(ts).value.1)
  {
    hide ReadRhs;
    RhsBalanced(ts[3..]);
    assert ts[3..][2..] == ts[5..];
    assert ts[..3] == NULL_TOKS == [Sym("(")] + [Word("null"), Sym(")")];
    DepthCat([Sym("(")], [Word("null"), Sym(")")]);
    assert [Word("null"), Sym(")")][1..] == [Sym(")")];
    DepthOne(Sym("("));
    DepthOne(Sym(")"));
    Dropped(ts, 3);
  }

  const SELECT: seq<Tok> := [Word("SELECT"), Word("file_id"), Word("FROM"), Word("mserv_filetag"), Word("ft")]

  lemma WordsAreLight()
    ensures forall i :: 0 <= i < |SELECT| ==> Weigh(SELECT[i]) == 0
    ensures forall i :: 0 <= i < |JOIN_TAGS| ==> Weigh(JOIN_TAGS[i]) == 0
    ensures Weigh(WHERE[0]) == Weigh(Word("EXISTS")) == 0
    ensures Clean(SELECT) && Clean(JOIN_TAGS) && Clean(WHERE) && Clean([Word("EXISTS"), Sym("(")])
  {}

  /** Words, and an opening parenthesis. */
  lemma ExistsHeads()
    ensures Depth(EXISTS_HEAD + WHERE) == 1 && Clean(EXISTS_HEAD + WHERE)
    ensures Depth(EXISTS_HEAD + JOIN_TAGS + WHERE) == 1 && Clean(EXISTS_HEAD + JOIN_TAGS + WHERE)
  {
    hide Depth, Clean, Weigh;
    var open := [Word("EXISTS"), Sym("(")];
    WordsAreLight();
    Light(SELECT);
    Light(JOIN_TAGS);
    DepthOne(WHERE[0]);
    assert WHERE == [WHERE[0]];
    assert Depth(open) == 1 by { OpenWeighs(); }
    assert EXISTS_HEAD == open + SELECT;
    DepthCat(open, SELECT);
    DepthCat(EXISTS_HEAD, WHERE);
    DepthCat(EXISTS_HEAD, JOIN_TAGS);
    DepthCat(EXISTS_HEAD + JOIN_TAGS, WHERE);
    CleanCat(open, SELECT);
    CleanCat(EXISTS_HEAD, WHERE);
    CleanCat(EXISTS_HEAD, JOIN_TAGS);
    CleanCat(EXISTS_HEAD + JOIN_TAGS, WHERE);
  }

  lemma OpenWeighs()
    ensures Depth([Word("EXISTS"), Sym("(")]) == 1
  {
    assert [Word("EXISTS"), Sym("(")][1..] == [Sym("(")];
    DepthOne(Sym("("));
  }

  lemma {:induction false} Light(ts: seq<Tok>)
    requires forall i :: 0 <= i < |ts| ==> Weigh(ts[i]) == 0
    ensures Depth(ts) == 0
  {
    if ts != [] { Light(ts[1..]); }
  }

  /** One token in front, and the rest read. */
  lemma Prefixed(ts: seq<Tok>, rest: seq<Tok>, d: int)
    requires ts != [] && ts[0] != Bad && Depth(ts[1..]) == Depth(rest) + d && (Clean(rest) ==> Clean(ts[1..]))
    ensures Depth(ts) == Weigh(ts[0]) + Depth(rest) + d && (Clean(rest) ==> Clean(ts))
  {
    assert ts == [ts[0]] + ts[1..];
  }

  lemma {:induction false} OrBalanced(ts: seq<Tok>)
    requires ReadOr(ts).Some?
    ensures Balanced(ts, ReadOr(ts).value.1)
    decreases |ts|, 3
  {
    hide ReadAnd, Depth, Clean;
    AndBalanced(ts);
    var rest := ReadAnd(ts).value.1;
    if rest != [] && rest[0] == Word("OR") {
      OrBalanced(rest[1..]);
      Prefixed(rest, ReadOr(rest[1..]).value.1, 0);
    }
  }

  lemma {:induction false} AndBalanced(ts: seq<Tok>)
    requires ReadAnd(ts).Some?
    ensures Balanced(ts, ReadAnd(ts).value.1)
    decreases |ts|, 2
  {
    hide ReadNot, Depth, Clean;
    NotBalanced(ts);
    var rest := ReadNot(ts).value.1;
    if rest != [] && rest[0] == Word("AND") {
      AndBalanced(rest[1..]);
      Prefixed(rest, ReadAnd(rest[1..]).value.1, 0);
    }
  }

  lemma {:induction false} NotBalanced(ts: seq<Tok>)
    requires ReadNot(ts).Some?
    ensures Balanced(ts, ReadNot(ts).value.1)
    decreases |ts|, 1
  {
    hide ReadPrimary, Depth, Clean;
    if ts == [] || ts[0] != Word("NOT") {
      PrimaryBalanced(ts);
    } else {
      NotBalanced(ts[1..]);
      Prefixed(ts, ReadNot(ts).value.1, 0);
    }
  }

  lemma {:induction false} PrimaryBalanced(ts: seq<Tok>)
    requires ReadPrimary(ts).Some?
    ensures Balanced(ts, ReadPrimary(ts).value.1)
    decreases |ts|, 0
  {
    hide ReadOr, ReadTest, ReadNull, ReadExists, Depth, Clean;
    if NULL_TOKS <= ts {
      NullBalanced(ts);
    } else if ts[0] == Sym("(") {
      OrBalanced(ts[1..]);
      var rest := ReadOr(ts[1..]).value.1;
      Prefixed(rest, rest[1..], 0);
      Prefixed(ts, rest[1..], -1);
    } else if EXISTS_HEAD + WHERE <= ts {
      ExistsBalanced(ts, false, EXISTS_HEAD + WHERE);
    } else if EXISTS_HEAD + JOIN_TAGS + WHERE <= ts {
      ExistsBalanced(ts, true, EXISTS_HEAD + JOIN_TAGS + WHERE);
    } else {
      TestBalanced(ts);
    }
  }

  lemma {:induction false} ExistsBalanced(ts: seq<Tok>, joined: bool, head: seq<Tok>)
    requires head == (if joined then EXISTS_HEAD + JOIN_TAGS + WHERE else EXISTS_HEAD + WHERE) && head <= ts
    requires ReadExists(ts, joined, |head|).Some?
    ensures Balanced(ts, ReadExists(ts, joined, |head|).value.1)
    decreases |ts| - |head|, 4
  {
    hide ReadOr, Depth, Clean;
    ExistsHeads();
    OrBalanced(ts[|head|..]);
    var rest := ReadOr(ts[|head|..]).value.1;
    Prefixed(rest, rest[1..], 0);
    assert ts == head + ts[|head|..];
    DepthCat(head, ts[|head|..]);
    CleanCat(head, ts[|head|..]);
  }

  lemma CleanCat(a: seq<Tok>, b: seq<Tok>)
    ensures Clean(a + b) <==> Clean(a) && Clean(b)
  {}

  /** A text that is read ends on the ground. */
  lemma ReadIsBalanced(s: string)
    requires ReadCond(s).Some?
    ensures Run(GROUND, s) == GROUND
  {
    hide Lex, ReadOr, Depth, Run;
    OrBalanced(Lex(s));
    assert Clean([]) && Depth([]) == 0 by { NoTokens(); }
    LexLevel(0, s);
  }

  lemma NoTokens()
    ensures Clean([]) && Depth([]) == 0
  {}

  // ----- texts that never go below the ground, and end on it -----

  ghost predicate Nested(s: string)
  { Run(GROUND, s) == GROUND && forall k: nat :: k <= |s| ==> Run(GROUND, s[..k]).depth >= 0 }

  lemma NestedAt(s: string, k: nat)
    requires Nested(s) && k <= |s|
    ensures Run(GROUND, s[..k]).depth >= 0
  {}

  lemma NestedCat(a: string, b: string)
    requires Nested(a) && Nested(b)
    ensures Nested(a + b)
  {
    hide Run;
    RunCat(GROUND, a, b);
    forall k: nat | k <= |a + b| ensures Run(GROUND, (a + b)[..k]).depth >= 0 {
      if k <= |a| {
        assert (a + b)[..k] == a[..k];
      } else {
        assert (a + b)[..k] == a + b[..k - |a|];
        RunCat(GROUND, a, b[..k - |a|]);
      }
    }
  }

  lemma NestedFlat(s: string)
    requires Flat(s)
    ensures Nested(s)
  {
    hide Run;
    RunFlat(GROUND, s);
    forall k: nat | k <= |s| ensures Run(GROUND, s[..k]).depth >= 0 { RunFlat(GROUND, s[..k]); }
  }

  /** Inside parentheses it is always deeper. */
  lemma Deeper(x: string, k: nat)
    requires Nested(x) && 0 < k <= |x| + 1
    ensures Run(GROUND, ("(" + x + ")")[..k]).depth >= 1
  {
    hide Run;
    var head := "(" + x[..k - 1];
    assert ("(" + x + ")")[..k] == head;
    RunCat(GROUND, "(", x[..k - 1]);
    assert Run(GROUND, "(") == Level(1, false) by { RunOpen(); }
    RunShift(1, GROUND, x[..k - 1]);
    NestedAt(x, k - 1);
  }

  lemma RunOpen()
    ensures Run(GROUND, "(") == Level(1, false) && forall d :: Run(Level(d, false), ")") == Level(d - 1, false)
  {
    assert "("[1..] == "" && ")"[1..] == "";
  }

  lemma NestedParens(x: string)
    requires Nested(x)
    ensures Nested("(" + x + ")")
  {
    hide Run;
    var s := "(" + x + ")";
    RunOpen();
    RunCat(GROUND, "(", x);
    RunShift(1, GROUND, x);
    RunCat(GROUND, "(" + x, ")");
    forall k: nat | k <= |s| ensures Run(GROUND, s[..k]).depth >= 0 {
      if k == 0 {
        assert s[..0] == "";
        RunFlat(GROUND, "");
      } else if k <= |x| + 1 {
        Deeper(x, k);
      } else {
        assert s[..k] == s;
      }
    }
  }

  /** Within a literal the depth does not change, and an escaped string does not end it. */
  lemma {:induction false} RunEscaped(d: int, s: string, k: nat)
    requires k <= |Escape(s)|
    ensures Run(Level(d, true), Escape(s)) == Level(d, true)
    ensures Run(Level(d, true), Escape(s)[..k]).depth == d
  {
    if s != "" {
      var c := if s[0] == '\'' then "''" else [s[0]];
      var rest, l := Escape(s[1..]), Level(d, true);
      assert Escape(s) == c + rest;
      RunEscaped(d, s[1..], if k <= |c| then 0 else k - |c|);
      RunCat(l, c, rest);
      assert Run(l, c) == l by {
        assert c[1..] == if s[0] == '\'' then "'" else "";
        assert "'"[1..] == "";
      }
      if k <= |c| {
        assert Escape(s)[..k] == c[..k];
        assert k == 0 || c[..k] == c || c[..k] == "'";
        assert "'"[1..] == "";
      } else {
        assert Escape(s)[..k] == c + rest[..k - |c|];
        RunCat(l, c, rest[..k - |c|]);
      }
    }
  }

  lemma RunQuote(l: Level)
    ensures Run(l, "'") == l.(open := !l.open)
  {
    assert "'"[1..] == "";
  }

  lemma NestedQuoted(x: string)
    ensures Nested(Quoted(x))
  {
    hide Run, Escape;
    var e := Escape(x);
    var s := Quoted(x);
    RunQuote(GROUND);
    RunQuote(Level(0, true));
    RunEscaped(0, x, 0);
    RunCat(GROUND, "'", e);
    RunCat(GROUND, "'" + e, "'");
    forall k: nat | k <= |s| ensures Run(GROUND, s[..k]).depth >= 0 {
      if k == 0 {
        assert s[..0] == "";
        RunFlat(GROUND, "");
      } else if k <= |e| + 1 {
        assert s[..k] == "'" + e[..k - 1];
        RunCat(GROUND, "'", e[..k - 1]);
        RunEscaped(0, x, k - 1);
      } else {
        assert s[..k] == s;
      }
    }
  }

  // ----- compiled texts are nested -----

  lemma WordFlat(w: string)
    requires IsWord(w)
    ensures Flat(w)
  {}

  lemma {:induction false} SpacedFlat(ws: seq<string>)
    requires forall i :: 0 <= i < |ws| ==> ws[i] == "=" || IsWord(ws[i])
    ensures Flat(Spaced(ws))
  {
    hide IsWord;
    if ws != [] {
      SpacedFlat(ws[1..]);
      if ws[0] != "=" { WordFlat(ws[0]); }
    }
  }

  lemma DecFlat(n: int)
    ensures Flat(Dec(n))
  {
    hide Digits;
  }

  lemma {:induction false} IdsFlat(ids: seq<int>, first: bool)
    ensures Flat(IdsText(ids, first))
  {
    hide Dec;
    if ids != [] {
      IdsFlat(ids[1..], false);
      DecFlat(ids[0]);
    }
  }

  lemma NestedColumn(c: Column)
    requires IsWord(c.name)
    ensures Nested(ColumnText(Some(c)))
  {
    hide Nested, IsWord;
    WordFlat(c.name);
    NestedFlat(c.name);
    if c.lower {
      NestedParens(c.name);
      NestedFlat("lower");
      NestedCat("lower", "(" + c.name + ")");
      assert ColumnText(Some(c)) == "lower" + ("(" + c.name + ")");
    }
  }

  lemma NestedRhs(t: Test)
    requires !t.val.List?
    ensures Nested(RhsText(t))
  {
    hide Nested, Dec, Pad4, Escape;
    match t.val
    case Num(n) =>
      if t.field == Year {
        NoQuotes(n);
        NestedQuoted(Pad4(n));
      } else {
        DecFlat(n);
        NestedFlat(Dec(n));
      }
    case Str(x) => NestedQuoted(x);
  }

  /** What stands in front of the right operand of a comparison. */
  function Head(t: Test): string { ColumnText(Some(ColumnOf(t))) + (" " + (SqlOp(t.op) + " ")) }

  lemma ScalarSplit(t: Test, db: Db)
    requires AllowedTest(t) && t.field != Tag
    ensures TestText(t, db) == Head(t) + RhsText(t) && !t.val.List? && SqlOp(t.op) in COMPARISONS
  {
    hide AllowedTest, TestText, ColumnText, ColumnOf, RhsText;
    ScalarText(t, db);
  }

  lemma NestedScalar(t: Test, db: Db)
    requires AllowedTest(t) && t.field != Tag
    ensures Nested(TestText(t, db))
  {
    hide Nested, AllowedTest, TestText, ColumnText, ColumnOf, RhsText, IsWord;
    ScalarSplit(t, db);
    ColumnIsPlain(t);
    NestedColumn(ColumnOf(t));
    NestedRhs(t);
    var op := " " + (SqlOp(t.op) + " ");
    assert Flat(op);
    NestedFlat(op);
    NestedCat(ColumnText(Some(ColumnOf(t))), op);
    NestedCat(Head(t), RhsText(t));
  }

  /** A test on tags that has a text: a word and one pair of parentheses around the rest. */
  lemma ExistsText(t: Test, db: Db) returns (x: string)
    requires AllowedTest(t) && t.field == Tag && !ComparesNull(t) && (LooksUp(t) ==> HasText(t, db))
    ensures Nested(x) && TestText(t, db) == "EXISTS" + ("(" + x + ")")
  {
    hide Nested, AllowedTest, TestText, Spaced, Quoted, IsWord, HasText;
    if t.op == Re {
      TagReText(t, db);
      MatchWords();
      SpacedFlat(MATCH_WORDS);
      var (words, r) := (" " + (Spaced(MATCH_WORDS) + "~* "), Quoted(t.val.s));
      x := words + r;
      NestedFlat(words);
      NestedQuoted(t.val.s);
      NestedCat(words, r);
      MatchShape(Spaced(MATCH_WORDS), r);
    } else {
      x := InShape(t, db);
    }
  }

  lemma MatchShape(words: string, r: string)
    ensures ("EXISTS" + ("(" + (" " + words))) + ("~*" + (" " + (r + ")")))
      == "EXISTS" + ("(" + ((" " + (words + "~* ")) + r) + ")")
  {}

  lemma InShape(t: Test, db: Db) returns (x: string)
    requires AllowedTest(t) && LooksUp(t) && HasText(t, db)
    ensures Nested(x) && TestText(t, db) == "EXISTS" + ("(" + x + ")")
  {
    hide Nested, AllowedTest, TestText, Spaced, TagIds, TestIds, NamesText, IdsText, IsWord;
    var list := Kept(IdsText(TestIds(t, db), true));
    TagText(t, db);
    LookedUp(t, db);
    IdsNotEmpty(TestIds(t, db));
    IdsFlat(TestIds(t, db), true);
    InWords();
    SpacedFlat(IN_WORDS);
    var words := " " + Spaced(IN_WORDS);
    x := words + ("(" + list + ")");
    NestedFlat(words);
    NestedFlat(list);
    NestedParens(list);
    NestedCat(words, "(" + list + ")");
    ListShape(Spaced(IN_WORDS), list);
  }

  lemma ListShape(words: string, list: string)
    ensures ("EXISTS" + ("(" + (" " + (words + "(")))) + (list + "))")
      == "EXISTS" + ("(" + ((" " + words) + ("(" + list + ")")) + ")")
  {}

  lemma NullShape(t: Test, db: Db)
    requires AllowedTest(t) && ComparesNull(t)
    ensures TestText(t, db) == ("(" + "null" + ")") + (" = " + Dec(t.val.n))
  {
    hide Find, Allowed, Dec;
    var tt := TestType(t.field, t.op, TypeOf(t.val));
    AllowedMeans(tt);
    AllowedHasEntry(tt);
  }

  lemma NestedTest(t: Test, db: Db)
    requires AllowedTest(t)
    ensures Nested(TestText(t, db))
  {
    hide Nested, AllowedTest, TestText, Dec, HasText;
    if t.field != Tag {
      NestedScalar(t, db);
    } else if ComparesNull(t) {
      NullShape(t, db);
      DecFlat(t.val.n);
      NestedFlat("null");
      NestedParens("null");
      NestedFlat(" = " + Dec(t.val.n));
      NestedCat("(" + "null" + ")", " = " + Dec(t.val.n));
    } else if LooksUp(t) && !HasText(t, db) {
      TagNoText(t, db);
      NestedFlat("");
    } else {
      var x := ExistsText(t, db);
      NestedParens(x);
      NestedFlat("EXISTS");
      NestedCat("EXISTS", "(" + x + ")");
    }
  }

  function Padded(x: string): string { " " + x + " " }

  lemma NestedPadded(x: string)
    requires Nested(x)
    ensures Nested(Padded(x)) && Nested("(" + Padded(x) + ")")
  {
    hide Nested;
    NestedFlat(" ");
    NestedCat(" ", x);
    NestedCat(" " + x, " ");
    NestedParens(Padded(x));
  }

  lemma {:induction false} NestedExpr(e: Expr, db: Db)
    requires Accepted(e)
    ensures Nested(ExprText(e, db))
  {
    hide Nested, AllowedTest, TestText, AcceptedValue;
    match e
    case Self(t) => NestedTest(t, db);
    case Not(x) =>
      NestedExpr(x, db);
      NestedPadded(ExprText(x, db));
      NestedFlat("NOT ");
      NestedCat("NOT ", "(" + Padded(ExprText(x, db)) + ")");
      NotShape(ExprText(x, db));
    case And(a, b) =>
      NestedExpr(a, db);
      NestedExpr(b, db);
      NestedPair(ExprText(a, db), "AND", ExprText(b, db));
      PairShape(ExprText(a, db), "AND", ExprText(b, db));
      assert " )" + "AND" + "( " == " )AND( ";
    case Or(a, b) =>
      NestedExpr(a, db);
      NestedExpr(b, db);
      NestedPair(ExprText(a, db), "OR", ExprText(b, db));
      PairShape(ExprText(a, db), "OR", ExprText(b, db));
      assert " )" + "OR" + "( " == " )OR( ";
  }

  lemma NotShape(x: string)
    ensures "NOT ( " + x + " )" == "NOT " + ("(" + Padded(x) + ")")
  {}

  lemma PairShape(a: string, w: string, b: string)
    ensures "( " + a + (" )" + w + "( ") + b + " )" == ("(" + Padded(a) + ")" + w) + ("(" + Padded(b) + ")")
  {}

  lemma NestedPair(a: string, w: string, b: string)
    requires Nested(a) && Nested(b) && Flat(w)
    ensures Nested(("(" + Padded(a) + ")" + w) + ("(" + Padded(b) + ")")) && Nested("(" + Padded(a) + ")" + w)
  {
    hide Nested, Padded;
    NestedPadded(a);
    NestedPadded(b);
    NestedFlat(w);
    NestedCat("(" + Padded(a) + ")", w);
    NestedCat("(" + Padded(a) + ")" + w, "(" + Padded(b) + ")");
  }

  // ----- cutting -----

  /** Size of the buffer a clause is built in. */
  const WHERE_LEN: nat := 4096

  /** A cut within the parentheses that end a text leaves them open. */
  lemma CutDeep(pre: string, x: string, k: nat)
    requires Nested(pre) && Nested(x) && |pre| < k < |pre + ("(" + x + ")")|
    ensures ReadCond((pre + ("(" + x + ")"))[..k]) == None
  {
    hide Run, ReadCond;
    var inner := "(" + x + ")";
    var cut := (pre + inner)[..k];
    assert cut == pre + inner[..k - |pre|];
    RunCat(GROUND, pre, inner[..k - |pre|]);
    Deeper(x, k - |pre|);
    assert Run(GROUND, cut).depth >= 1;
    assert ReadCond(cut).None? || Run(GROUND, cut) == GROUND by {
      if ReadCond(cut).Some? { ReadIsBalanced(cut); }
    }
  }

  /** The place of a quote whose second copy is the first character that was cut off. */
  function Half(s: string, j: int): (r: Option<nat>)
    ensures r.Some? ==> r.value < |s| && s[r.value] == '\''
  {
    if s == "" || j <= 0 then None
    else if s[0] == '\'' && j == 1 then Some(0)
    else
      match Half(s[1..], if s[0] == '\'' then j - 2 else j - 1)
      case None => None
      case Some(i) => Some(i + 1)
  }

  /** That is one more than what the quotes and characters in front of it take. */
  lemma {:induction false} HalfMeans(s: string, j: int, i: nat)
    ensures Half(s, j) == Some(i) <==> i < |s| && s[i] == '\'' && j == |Escape(s[..i])| + 1
  {
    if s != "" && j > 0 && !(s[0] == '\'' && j == 1) && i > 0 {
      HalfMeans(s[1..], if s[0] == '\'' then j - 2 else j - 1, i - 1);
    }
    if s != "" && 0 < i <= |s| { assert s[..i][1..] == s[1..][..i - 1] && s[..i][0] == s[0]; }
    if i == 0 { assert s[..0] == ""; }
  }

  /** What is read of a literal that was cut off: nothing, unless it was cut between the copies of a quote. */
  lemma {:induction false} CutLiteral(s: string, j: nat)
    requires j <= |Escape(s)|
    ensures ReadLiteral(Escape(s)[..j]) == match Half(s, j)
      case None => None
      case Some(i) => Some((s[..i], ""))
  {
    var e := Escape(s)[..j];
    if s != "" && j > 0 {
      var c := if s[0] == '\'' then "''" else [s[0]];
      var rest := Escape(s[1..]);
      assert Escape(s) == c + rest;
      if j < |c| {
        assert e == "'";
      } else {
        var n := j - |c|;
        CutLiteral(s[1..], n);
        assert e == c + rest[..n];
        assert e[|c|..] == rest[..n];
        var h := Half(s[1..], n);
        if h.Some? { assert [s[0]] + s[1..][..h.value] == s[..h.value + 1]; }
      }
    }
  }

  /** A text with a token that is none is not read. */
  lemma NotClean(s: string)
    requires !Clean(Lex(s))
    ensures ReadCond(s) == None
  {
    hide Lex, ReadOr, Depth, Clean;
    NoTokens();
    if ReadOr(Lex(s)).Some? { OrBalanced(Lex(s)); }
  }

  lemma LexHead(t: Test, s: string)
    requires AllowedTest(t) && t.field != Tag && s != "" && s[0] == '\''
    ensures Lex(Head(t) + s) == ColumnToks(ColumnOf(t)) + ([Sym(SqlOp(t.op))] + Lex(s))
  {
    hide Lex, AllowedTest, ColumnText, ColumnToks, ColumnOf, IsWord;
    ScalarOp(t);
    ColumnIsPlain(t);
    var c, op := ColumnText(Some(ColumnOf(t))), SqlOp(t.op);
    LexSpace(s);
    LexSym(op, " " + s);
    LexSpace(op + (" " + s));
    LexColumn(ColumnOf(t), " " + (op + (" " + s)));
    HeadShape(c, op, s);
  }

  lemma HeadShape(c: string, op: string, s: string)
    ensures (c + (" " + (op + " "))) + s == c + (" " + (op + (" " + s)))
  {}

  lemma LexCutLiteral(v: string, j: nat)
    requires j <= |Escape(v)|
    ensures Lex("'" + Escape(v)[..j]) == match Half(v, j)
      case None => [Bad]
      case Some(i) => [Lit(v[..i])]
  {
    hide Escape, Half, ReadLiteral;
    CutLiteral(v, j);
    Joined("'", Escape(v)[..j]);
    if Half(v, j).Some? {
      LexNothing();
      assert [Lit(v[..Half(v, j).value])] + [] == [Lit(v[..Half(v, j).value])];
    }
  }

  /** A comparison with a string that was cut off is an error, or a comparison with the front of the string. */
  lemma CutString(t: Test, db: Db, k: nat)
    requires AllowedTest(t) && t.field != Tag && t.val.Str? && |Head(t)| < k < |TestText(t, db)|
    ensures ReadCond(TestText(t, db)[..k]) == match Half(t.val.s, k - |Head(t)| - 1)
      case None => None
      case Some(i) => Some(CCompare(ColumnOf(t), SqlOp(t.op), OText(t.val.s[..i])))
  {
    hide Lex, AllowedTest, TestText, ColumnToks, ColumnOf, Half, Head, ReadOr, Escape;
    ScalarSplit(t, db);
    var v := t.val.s;
    var j := k - |Head(t)| - 1;
    var lit := "'" + Escape(v)[..j];
    var cut := TestText(t, db)[..k];
    assert cut == Head(t) + lit;
    LexHead(t, lit);
    LexCutLiteral(v, j);
    if Half(v, j).Some? {
      var o := OText(v[..Half(v, j).value]);
      ColumnIsPlain(t);
      ReadScalar(ColumnOf(t), SqlOp(t.op), o, []);
      assert ColumnToks(ColumnOf(t)) + [Sym(SqlOp(t.op)), RhsTok(o)] + [] == Lex(cut);
    } else {
      assert Bad in Lex(cut) by { assert Lex(cut)[|Lex(cut)| - 1] == Bad; }
      NotClean(cut);
    }
  }

  // ----- numbers are short -----

  lemma DecIsShort(n: int)
    requires InInt(n)
    ensures |Dec(n)| <= 11 && |Pad4(n)| <= 11
  {
    hide Digits;
    var m := if n < 0 then -n else n;
    SaveLoad.PowersOfTen();
    SaveLoad.DigitsLength(m, 10);
  }

  lemma HeadIsShort(t: Test)
    requires AllowedTest(t) && t.field != Tag
    ensures |Head(t)| <= 40
  {
    hide AllowedTest, ColumnOf;
    ColumnNames(t);
    ScalarOp(t);
    assert |ColumnOf(t).name| <= 18;
  }

  lemma NumberIsShort(t: Test, db: Db)
    requires AllowedTest(t) && AcceptedValue(t.val) && t.val.Num?
    ensures |TestText(t, db)| < 100
  {
    hide AllowedTest, TestText, Head, Dec, Pad4;
    DecIsShort(t.val.n);
    if t.field != Tag {
      ScalarSplit(t, db);
      HeadIsShort(t);
    } else {
      assert t.op != Re by { TagNumberOp(t); }
      NullShape(t, db);
    }
  }

  lemma TagNumberOp(t: Test)
    requires AllowedTest(t) && t.val.Num? && t.field == Tag
    ensures t.op != Re
  {
    hide Allowed;
    AllowedMeans(TestType(t.field, t.op, TypeOf(t.val)));
  }

  // ----- pairs -----

  /** Behind the first operand: the connective is missing its second operand, or is no connective at all. */
  lemma CutWord(a: Expr, db: Db, w: string)
    requires Accepted(a) && IsWord(w)
    ensures ReadCond("(" + Padded(ExprText(a, db)) + ")" + w) == None
  {
    hide Lex, ReadOr, ReadPrimary, ExprText, ExprToks, Accepted, IsWord, Compiles, ExprCond;
    var ta, rest := ExprText(a, db), [Word(w)];
    LexNothing();
    LexWord(w, "");
    assert w + "" == w && [Word(w)] + [] == rest;
    LexClose(w);
    ExprLex(a, db, " )" + w);
    LexOpen(ta + (" )" + w));
    assert "(" + Padded(ta) + ")" + w == "( " + (ta + (" )" + w));
    var ts := ExprToks(a, db) + (CLOSE + rest);
    ExprRead(a, db, CLOSE + rest);
    NotNull(a, db, CLOSE + rest);
    var x := if Compiles(a, db) then Some(ExprCond(a, db)) else None;
    ReadParens(ts, x, rest);
    ReadLeftover([Sym("(")] + ts, x, w);
  }

  lemma ReadLeftover(ts: seq<Tok>, x: Option<Cond>, w: string)
    requires ts != [] && ts[0] == Sym("(") && ReadPrimary(ts) == Read(x, [Word(w)])
    ensures ReadOr(ts) == None || ReadOr(ts).value.1 == [Word(w)]
  {
    hide ReadPrimary;
    var rest := [Word(w)];
    assert rest[1..] == [];
    assert ReadPrimary([]) == None by { NothingToRead(); }
    NotAlone([]);
    assert ReadNot(ts) == Read(x, rest);
    assert ReadAnd(ts) == if w == "AND" then None else Read(x, rest);
    assert ReadOr(ts) == if w == "AND" || w == "OR" then None else Read(x, rest);
  }

  lemma NothingToRead()
    ensures ReadPrimary([]) == None
  {}

  /** Just behind the first operand: the clause is that operand. */
  lemma CutBehindFirst(a: Expr, db: Db)
    requires Accepted(a)
    ensures ReadCond("(" + Padded(ExprText(a, db)) + ")") == if Compiles(a, db) then Some(ExprCond(a, db)) else None
  {
    hide Lex, ReadOr, ReadPrimary, ExprText, ExprToks, Accepted, Compiles, ExprCond;
    var ta := ExprText(a, db);
    LexNothing();
    LexClose("");
    assert " )" + "" == " )" && [Sym(")")] + [] == CLOSE;
    ExprLex(a, db, " )");
    LexOpen(ta + " )");
    assert "(" + Padded(ta) + ")" == "( " + (ta + " )");
    var ts := ExprToks(a, db) + CLOSE;
    assert CLOSE + [] == CLOSE;
    ExprRead(a, db, CLOSE);
    NotNull(a, db, CLOSE);
    var x := if Compiles(a, db) then Some(ExprCond(a, db)) else None;
    ReadParens(ts, x, []);
    if x.Some? { Alone([Sym("(")] + ts, x.value, []); } else { NotAlone([Sym("(")] + ts); }
  }

  lemma CutPair(a: Expr, w: string, b: Expr, db: Db, k: nat)
    requires Accepted(a) && Accepted(b) && (w == "AND" || w == "OR")
    requires var text := "( " + ExprText(a, db) + (" )" + w + "( ") + ExprText(b, db) + " )"; 0 < k < |text|
    ensures var text := "( " + ExprText(a, db) + (" )" + w + "( ") + ExprText(b, db) + " )";
      ReadCond(text[..k]) ==
        if k == |ExprText(a, db)| + 4 && Compiles(a, db) then Some(ExprCond(a, db)) else None
  {
    hide ReadCond, ExprText, Nested, Accepted, Compiles, ExprCond, Padded;
    var (x, y) := (ExprText(a, db), ExprText(b, db));
    var first, second := "(" + Padded(x) + ")", "(" + Padded(y) + ")";
    var text := "( " + x + (" )" + w + "( ") + y + " )";
    PairShape(x, w, y);
    assert |Padded(x)| == |x| + 2 by { PaddedLength(x); }
    NestedExpr(a, db);
    NestedExpr(b, db);
    NestedPadded(x);
    NestedPadded(y);
    if k < |first| {
      assert text[..k] == first[..k] == ("" + first)[..k];
      NestedFlat("");
      CutDeep("", Padded(x), k);
    } else if k == |first| {
      assert text[..k] == first;
      CutBehindFirst(a, db);
    } else if k <= |first| + |w| {
      var w' := w[..k - |first|];
      assert text[..k] == first + w';
      assert IsWord(w');
      CutWord(a, db, w');
    } else {
      NestedPair(x, w, y);
      CutDeep(first + w, Padded(y), k);
    }
  }

  lemma PaddedLength(x: string)
    ensures |Padded(x)| == |x| + 2
  {}

  // ----- main result -----

  /** The cut falls between the copies of a quote in the literal of a comparison; this is the place of the quote. */
  function InQuote(e: Expr, k: nat): Option<nat>
  {
    if e.Self? && e.test.field != Tag && e.test.val.Str? then Half(e.test.val.s, k - |Head(e.test)| - 1) else None
  }

  /** The cut falls just behind the first operand of the whole filter. */
  predicate BehindFirst(e: Expr, k: nat, db: Db) { (e.And? || e.Or?) && k == |ExprText(e.a, db)| + 4 }

  /**
   What is read of a clause that was cut off: nothing, unless the cut falls between the copies of a quote of the
   only literal, or just behind the first operand. Then the clause compares with the front of the literal, or is
   that operand.
   */
  lemma CutClause(e: Expr, db: Db, k: nat)
    requires Accepted(e) && WHERE_LEN - 1 <= k < |ExprText(e, db)|
    ensures ReadCond(ExprText(e, db)[..k]) ==
      if InQuote(e, k).Some? then
        Some(CCompare(ColumnOf(e.test), SqlOp(e.test.op), OText(e.test.val.s[..InQuote(e, k).value])))
      else if BehindFirst(e, k, db) && Compiles(e.a, db) then Some(ExprCond(e.a, db))
      else None
  {
    hide ReadCond, Nested, AllowedTest, TestText, Head, Half, AcceptedValue, TagIds, HasText, CompilesTest;
    match e
    case Self(t) => CutTest(t, db, k);
    case Not(x) =>
      var tx := ExprText(x, db);
      NestedExpr(x, db);
      NestedPadded(tx);
      NestedFlat("NOT ");
      NotShape(tx);
      CutDeep("NOT ", Padded(tx), k);
    case And(a, b) =>
      assert " )" + "AND" + "( " == " )AND( ";
      CutPair(a, "AND", b, db, k);
    case Or(a, b) =>
      assert " )" + "OR" + "( " == " )OR( ";
      CutPair(a, "OR", b, db, k);
  }

  lemma CutTest(t: Test, db: Db, k: nat)
    requires AllowedTest(t) && AcceptedValue(t.val) && WHERE_LEN - 1 <= k < |TestText(t, db)|
    ensures ReadCond(TestText(t, db)[..k]) == match InQuote(Self(t), k)
      case None => None
      case Some(i) => Some(CCompare(ColumnOf(t), SqlOp(t.op), OText(t.val.s[..i])))
  {
    hide ReadCond, Nested, AllowedTest, TestText, Head, Half, HasText, ColumnOf;
    assert !t.val.Num? by { if t.val.Num? { NumberIsShort(t, db); } }
    if t.field != Tag {
      ScalarSplit(t, db);
      HeadIsShort(t);
      CutString(t, db, k);
    } else {
      assert LooksUp(t) ==> HasText(t, db) by { if LooksUp(t) && !HasText(t, db) { TagNoText(t, db); } }
      var x := ExistsText(t, db);
      NestedFlat("EXISTS");
      CutDeep("EXISTS", x, k);
    }
  }
}
