/** SQL string literals, their escaping, and the tokens of a WHERE clause. */
module SqlLex {
  import opened Text

  // ----- string literals: a quote inside is doubled -----

  function Escape(s: string): string
  {
    if s == "" then "" else (if s[0] == '\'' then "''" else [s[0]]) + Escape(s[1..])
  }

  /** Reads the rest of a literal whose opening quote has been read. */
  function ReadLiteral(s: string): (r: Option<(string, string)>)
    ensures r.Some? ==> |r.value.1| < |s|
  {
    if s == "" then None
    else if s[0] == '\'' && (|s| == 1 || s[1] != '\'') then Some(("", s[1..]))
    else
      match ReadLiteral(s[if s[0] == '\'' then 2 else 1..])
      case None => None
      case Some((lit, rest)) => Some(([s[0]] + lit, rest))
  }

  /** Escaping is exact: the literal reads back as the string, whatever follows it but a quote. */
  lemma {:induction false} EscapeExact(s: string, rest: string)
    requires rest == "" || rest[0] != '\''
    ensures ReadLiteral(Escape(s) + ("'" + rest)) == Some((s, rest))
  {
    if s == "" {
      assert "" + ("'" + rest) == "'" + rest;
      assert ("'" + rest)[1..] == rest;
    } else {
      var c := if s[0] == '\'' then "''" else [s[0]];
      var tail := Escape(s[1..]) + ("'" + rest);
      EscapeExact(s[1..], rest);
      Cat3(c, Escape(s[1..]), "'" + rest);
      Joined(c, tail);
      var t := c + tail;
      assert t[0] == s[0] && (s[0] == '\'' ==> t[1] == '\'');
      assert s == [s[0]] + s[1..];
    }
  }

  /** Without its closing quote an escaped string is no literal. */
  lemma {:induction false} EscapeUnclosed(s: string)
    ensures ReadLiteral(Escape(s)) == None
  {
    if s != "" {
      var c := if s[0] == '\'' then "''" else [s[0]];
      EscapeUnclosed(s[1..]);
      Joined(c, Escape(s[1..]));
    }
  }

  /** Number of quotes. */
  function Quotes(s: string): nat { if s == "" then 0 else (if s[0] == '\'' then 1 else 0) + Quotes(s[1..]) }

  lemma {:induction false} EscapeLength(s: string)
    ensures |Escape(s)| == |s| + Quotes(s)
    ensures Quotes(s) == 0 <==> '\'' !in s
    ensures Quotes(s) == 0 ==> Escape(s) == s
  {
    if s != "" {
      EscapeLength(s[1..]);
      Split(s, 1);
    }
  }

  /** The position of the next quote at or behind p, or None. */
  method StrChr(s: string, p: nat) returns (r: Option<nat>)
    requires p <= |s|
    ensures match r
      case None => '\'' !in s[p..]
      case Some(q) => p <= q < |s| && s[q] == '\'' && '\'' !in s[p..q]
  {
    var q := p;
    while q < |s|
      invariant p <= q <= |s| && '\'' !in s[p..q]
    {
      if s[q] == '\'' { return Some(q); }
      q := q + 1;
    }
    r := None;
  }

  lemma {:induction false} QuotesFrom(s: string, p: nat, q: nat)
    requires p <= q < |s| && s[q] == '\'' && '\'' !in s[p..q]
    ensures Quotes(s[p..]) == 1 + Quotes(s[q + 1..])
    decreases q - p
  {
    assert s[p..][1..] == s[p + 1..];
    if p < q {
      assert s[p..q][0] == s[p];
      assert s[p + 1..q] == s[p..q][1..];
      QuotesFrom(s, p + 1, q);
    }
  }

  /**
   Escapes into newly allocated memory. The size is counted beforehand, and the copy fills it exactly,
   terminator included; without a quote the string is copied as it is.
   */
  method DbEscape(s: string) returns (esc: array<char>)
    ensures fresh(esc) && esc.Length == |Escape(s)| + 1
    ensures esc[..|Escape(s)|] == Escape(s) && esc[|Escape(s)|] == '\0'
  {
    hide Escape, Quotes;
    EscapeLength(s);
    var p := StrChr(s, 0);
    assert s[0..] == s;
    if p == None {
      esc := new char[|s| + 1](i => if 0 <= i < |s| then s[i] else '\0');
      return;
    }
    var len := |s|;
    var at := p.value;
    assert Quotes(s[at..]) == Quotes(s) by {
      QuotesFrom(s, 0, at);
      QuotesFrom(s, at, at);
    }
    p := StrChr(s, at);
    while p.Some?
      invariant at <= |s| && len + Quotes(s[at..]) == |Escape(s)|
      invariant match p case None => '\'' !in s[at..] case Some(q) => at <= q < |s| && s[q] == '\'' && '\'' !in s[at..q]
      decreases |s| - at
    {
      QuotesFrom(s, at, p.value);
      len := len + 1;
      at := p.value + 1;
      p := StrChr(s, at);
    }
    EscapeLength(s[at..]);
    esc := new char[len + 1];
    var q := 0;
    for i := 0 to |s|
      invariant q + |Escape(s[i..])| == len && esc[..q] + Escape(s[i..]) == Escape(s)
    {
      EscapeStep(s, i);
      ghost var done := esc[..q];
      esc[q] := s[i];
      q := q + 1;
      assert esc[..q] == done + [s[i]];
      if s[i] == '\'' {
        esc[q] := '\'';
        q := q + 1;
        assert esc[..q] == done + "''";
        Cat3(done, "''", Escape(s[i + 1..]));
      } else {
        Cat3(done, [s[i]], Escape(s[i + 1..]));
      }
    }
    EscapeEnd(s);
    esc[q] := '\0';
  }

  lemma EscapeStep(s: string, i: nat)
    requires i < |s|
    ensures Escape(s[i..]) == (if s[i] == '\'' then "''" else [s[i]]) + Escape(s[i + 1..])
  {
    assert s[i..][1..] == s[i + 1..];
  }

  lemma EscapeEnd(s: string)
    ensures Escape(s[|s|..]) == ""
  {}

  // ----- tokens -----

  datatype Tok = Word(w: string) | Int(n: int) | Lit(s: string) | Sym(sym: string) | Bad

  predicate WordChar(c: char) { IsAlnum(c) || c == '_' || c == '.' }

  /** A keyword or a column, with the table's name in front if there is one. */
  predicate IsWord(w: string) { w != "" && IsAlpha(w[0]) && forall i :: 0 <= i < |w| ==> WordChar(w[i]) }

  function WordLen(s: string): (k: nat)
    ensures k <= |s|
  { if s == "" || !WordChar(s[0]) then 0 else 1 + WordLen(s[1..]) }

  function DigitLen(s: string): (k: nat)
    ensures k <= |s| && AllDigits(s[..k])
  {
    if s == "" || !IsDigit(s[0]) then 0 else
      var k := DigitLen(s[1..]);
      assert forall i :: 1 <= i < k + 1 ==> s[i] == s[1..][..k][i-1];
      1 + k
  }

  /** Length of the operator or punctuation at the start of the text; 0 if there is none. */
  function SymLen(s: string): (k: nat)
    ensures k <= |s|
  {
    if s == "" then 0
    else if |s| > 1 && s[..2] in {"<=", ">=", "~*"} then 2
    else if s[0] in {'=', '<', '>', '~', '(', ')', ','} then 1
    else 0
  }

  function Lex(s: string): seq<Tok>
    decreases |s|
  {
    if s == "" then []
    else if IsSpace(s[0]) then Lex(s[1..])
    else if IsAlpha(s[0]) then [Word(s[..WordLen(s)])] + Lex(s[WordLen(s)..])
    else if IsDigit(s[0]) then [Int(DigitsValue(s[..DigitLen(s)]))] + Lex(s[DigitLen(s)..])
    else if s[0] == '-' && |s| > 1 && IsDigit(s[1]) then
      [Int(0 - DigitsValue(s[1..][..DigitLen(s[1..])]) as int)] + Lex(s[1..][DigitLen(s[1..])..])
    else if s[0] == '\'' then
      match ReadLiteral(s[1..])
      case None => [Bad]
      case Some((lit, rest)) => [Lit(lit)] + Lex(rest)
    else if SymLen(s) > 0 then [Sym(s[..SymLen(s)])] + Lex(s[SymLen(s)..])
    else [Bad] + Lex(s[1..])
  }

  // ----- lexing piece by piece -----

  lemma LexSpace(s: string)
    ensures Lex(" " + s) == Lex(s)
  {
    Joined(" ", s);
  }

  lemma {:induction false} WordExtent(w: string, s: string)
    requires (forall i :: 0 <= i < |w| ==> WordChar(w[i])) && (s == "" || !WordChar(s[0]))
    ensures WordLen(w + s) == |w|
  {
    if w == "" {
      assert w + s == s;
    } else {
      assert (w + s)[1..] == w[1..] + s;
      WordExtent(w[1..], s);
    }
  }

  lemma LexWord(w: string, s: string)
    requires IsWord(w) && (s == "" || !WordChar(s[0]))
    ensures Lex(w + s) == [Word(w)] + Lex(s)
  {
    WordExtent(w, s);
    Joined(w, s);
  }

  lemma {:induction false} DigitExtent(d: string, s: string)
    requires AllDigits(d) && (s == "" || !IsDigit(s[0]))
    ensures DigitLen(d + s) == |d|
  {
    if d == "" {
      assert d + s == s;
    } else {
      assert (d + s)[1..] == d[1..] + s;
      DigitExtent(d[1..], s);
    }
  }

  lemma LexInt(n: int, s: string)
    requires s == "" || !IsDigit(s[0])
    ensures Lex(Dec(n) + s) == [Int(n)] + Lex(s)
  {
    hide Digits, DigitsValue, DigitLen, Lex;
    if n < 0 {
      LexDigits(-n, s);
    } else {
      LexDigits(n, s);
    }
  }

  lemma LexDigits(n: int, s: string)
    requires n >= 0 && (s == "" || !IsDigit(s[0]))
    ensures Lex(Digits(n) + s) == [Int(n)] + Lex(s)
    ensures n > 0 ==> Lex("-" + Digits(n) + s) == [Int(-n)] + Lex(s)
  {
    hide Digits, DigitsValue, DigitLen;
    var d := Digits(n);
    DigitsRoundTrip(n);
    DigitExtent(d, s);
    Joined(d, s);
    Cat3("-", d, s);
    Joined("-", d + s);
  }

  lemma LexLiteral(x: string, s: string)
    requires s == "" || s[0] != '\''
    ensures Lex("'" + Escape(x) + "'" + s) == [Lit(x)] + Lex(s)
  {
    EscapeExact(x, s);
    Cat4("'", Escape(x), "'", s);
    Joined("'", Escape(x) + ("'" + s));
  }

  lemma LexSym(sym: string, s: string)
    requires sym in {"=", "<", "<=", ">", ">=", "~*", "(", ")", ","}
    requires sym in {"<", ">"} ==> s == "" || s[0] != '='
    ensures Lex(sym + s) == [Sym(sym)] + Lex(s)
  {
    hide ReadLiteral, WordLen, DigitLen;
    Joined(sym, s);
    var t := sym + s;
    assert |t| > 1 ==> t[..2] == [t[0], t[1]];
    assert SymLen(t) == |sym|;
  }

  /** Words and equals signs, each followed by a blank. */
  function Spaced(ws: seq<string>): string
  { if ws == [] then "" else ws[0] + " " + Spaced(ws[1..]) }

  function Atom(w: string): Tok { if w == "=" then Sym(w) else Word(w) }

  function Atoms(ws: seq<string>): (ts: seq<Tok>)
    ensures |ts| == |ws| && forall i :: 0 <= i < |ws| ==> ts[i] == Atom(ws[i])
  { seq(|ws|, i requires 0 <= i < |ws| => Atom(ws[i])) }

  lemma {:induction false} LexSpaced(ws: seq<string>, s: string)
    requires forall i :: 0 <= i < |ws| ==> ws[i] == "=" || IsWord(ws[i])
    ensures Lex(Spaced(ws) + s) == Atoms(ws) + Lex(s)
  {
    hide Lex, IsWord;
    if ws == [] {
      assert Spaced(ws) + s == s;
    } else {
      var w, s' := ws[0], Spaced(ws[1..]) + s;
      LexSpaced(ws[1..], s);
      Cat4(w, " ", Spaced(ws[1..]), s);
      Joined(" ", s');
      LexSpace(s');
      if w == "=" { LexSym(w, " " + s'); } else { LexWord(w, " " + s'); }
      assert Atoms(ws) == [Atom(w)] + Atoms(ws[1..]);
      assert [Atom(w)] + (Atoms(ws[1..]) + Lex(s)) == Atoms(ws) + Lex(s);
    }
  }
}
