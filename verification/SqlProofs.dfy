/** The compiled clause means what the filter means, exactly for the filters that compile properly. */
module SqlProofs {
  import opened Text
  import opened Filter
  import opened SqlLex
  import opened Sql
  import opened SqlCompile

  // ----- every allowed test has an entry -----

  lemma {:induction false} FindAppend(a: seq<Entry>, b: seq<Entry>, t: TestType)
    ensures Find(a + b, t) == if Find(a, t).Some? then Find(a, t) else Find(b, t)
  {
    if a == [] {
      assert a + b == b;
    } else {
      assert (a + b)[1..] == a[1..] + b;
      FindAppend(a[1..], b, t);
    }
  }

  lemma FindAt(table: seq<Entry>, k: nat, t: TestType)
    requires k < |table|
    ensures Find(table[k..], t) == if table[k].typ == t then Some(table[k]) else Find(table[k + 1..], t)
  {
    assert table[k..][1..] == table[k + 1..];
  }

  lemma FindCompare(f: Field, format: Format, name: string, t: TestType)
    ensures Find(CompareEntries(f, format, name), t) ==
      if t.field != f || t.op !in {Eq, Lt, Le, Gt, Ge} || t.typ != NumType then None
      else Some(Entry(t, format, Plain(name)))
  {
    var c := CompareEntries(f, format, name);
    assert c[0..] == c;
    FindAt(c, 0, t);
    FindAt(c, 1, t);
    FindAt(c, 2, t);
    FindAt(c, 3, t);
    FindAt(c, 4, t);
  }

  lemma FindNamed(f: Field, name: string, id: string, t: TestType)
    ensures Find(NamedEntries(f, name, id), t) ==
      if t.field != f then None
      else if t.op == Eq && t.typ == StringType then Some(Entry(t, StringFormat, Lowered(name)))
      else if t.op == Eq && t.typ == NumType then Some(Entry(t, NumFormat, Plain(id)))
      else if t.op == Re && t.typ == StringType then Some(Entry(t, StringFormat, Plain(name)))
      else None
  {
    var c := NamedEntries(f, name, id);
    assert c[0..] == c;
    FindAt(c, 0, t);
    FindAt(c, 1, t);
    FindAt(c, 2, t);
  }

  lemma FindTag(t: TestType)
    ensures Find(TAG_ENTRIES, t) ==
      if t.field != Tag then None
      else if t.op == Eq && t.typ == NumType then Some(Entry(t, NumFormat, None))
      else if t.op == Eq && t.typ == StringType then Some(Entry(t, TagFormat, None))
      else if t.op == Re && t.typ == StringType then Some(Entry(t, TagReFormat, None))
      else if t.op == In && t.typ == ListType then Some(Entry(t, TagListFormat, None))
      else None
  {
    var c := TAG_ENTRIES;
    assert c[0..] == c;
    FindAt(c, 0, t);
    FindAt(c, 1, t);
    FindAt(c, 2, t);
    FindAt(c, 3, t);
  }

  lemma FindTitle(t: TestType)
    ensures Find(TITLE_ENTRIES, t) ==
      if t.field != Title then None
      else if t.op == Eq && t.typ == StringType then Some(Entry(t, StringFormat, Lowered("title")))
      else if t.op == Re && t.typ == StringType then Some(Entry(t, StringFormat, Plain("title")))
      else None
  {
    var c := TITLE_ENTRIES;
    assert c[0..] == c;
    FindAt(c, 0, t);
    FindAt(c, 1, t);
  }

  /** The entry of an allowed test, spelt out by field. */
  function EntryOf(t: TestType): Entry
  {
    match t.field
    case Duration => Entry(t, NumFormat, Plain("dur"))
    case LastPlay => Entry(t, NumFormat, Plain("lplay"))
    case Year => Entry(t, YearFormat, Plain("album_publish_year"))
    case Pos => Entry(t, NumFormat, Plain("album_pos"))
    case Title => Entry(t, StringFormat, if t.op == Eq then Lowered("title") else Plain("title"))
    case Artist => NamedEntry(t, "artist_name", "artist_id")
    case Album => NamedEntry(t, "album_name", "album_id")
    case _ =>
      Entry(t, if t.typ == NumType then NumFormat else if t.typ == ListType then TagListFormat
               else if t.op == Re then TagReFormat else TagFormat, None)
  }

  function NamedEntry(t: TestType, name: string, id: string): Entry
  {
    if t.typ == NumType then Entry(t, NumFormat, Plain(id))
    else Entry(t, StringFormat, if t.op == Eq then Lowered(name) else Plain(name))
  }

  /** Whatever the parser allows, the compiler has a format for. */
  lemma AllowedHasEntry(t: TestType)
    requires Allowed(t)
    ensures Find(ENTRIES, t) == Some(EntryOf(t))
  {
    hide Find, CompareEntries, NamedEntries, Allowed;
    AllowedMeans(t);
    var e8 := CompareEntries(Pos, NumFormat, "album_pos");
    var a7, a6 := NamedEntries(Album, "album_name", "album_id"), NamedEntries(Artist, "artist_name", "artist_id");
    var e7 := a7 + e8;
    var e6 := a6 + e7;
    var e5 := TITLE_ENTRIES + e6;
    var e4 := TAG_ENTRIES + e5;
    var a3, a2 := CompareEntries(Year, YearFormat, "album_publish_year"), CompareEntries(LastPlay, NumFormat, "lplay");
    var e3 := a3 + e4;
    var e2 := a2 + e3;
    FindCompare(Duration, NumFormat, "dur", t);
    FindCompare(LastPlay, NumFormat, "lplay", t);
    FindCompare(Year, YearFormat, "album_publish_year", t);
    FindTag(t);
    FindTitle(t);
    FindNamed(Artist, "artist_name", "artist_id", t);
    FindNamed(Album, "album_name", "album_id", t);
    FindCompare(Pos, NumFormat, "album_pos", t);
    FindAppend(a7, e8, t);
    FindAppend(a6, e7, t);
    FindAppend(TITLE_ENTRIES, e6, t);
    FindAppend(TAG_ENTRIES, e5, t);
    FindAppend(a3, e4, t);
    FindAppend(a2, e3, t);
    FindAppend(CompareEntries(Duration, NumFormat, "dur"), e2, t);
  }

  // ----- tag names are looked up exactly -----

  lemma {:induction false} NamesTextLexes(vs: seq<Value>, first: bool)
    ensures Lex(NamesText(vs, first)) == NameToks(Names(vs), first)
    ensures NamesText(vs, first) == "" <==> Names(vs) == []
    ensures NamesText(vs, first) == "" || NamesText(vs, first)[0] == if first then '\'' else ','
  {
    hide Lex, Escape;
    if vs == [] {
      LexNothing();
    } else if vs[0].Str? {
      var s, tail := vs[0].s, NamesText(vs[1..], false);
      NamesTextLexes(vs[1..], false);
      LexLiteral(s, tail);
      var text := Quoted(s) + tail;
      assert Names(vs)[0] == s && Names(vs)[1..] == Names(vs[1..]);
      if first {
        assert "" + text == text;
      } else {
        LexSym(",", text);
      }
    } else {
      NamesTextLexes(vs[1..], first);
      assert [] + Names(vs[1..]) == Names(vs[1..]);
    }
  }

  lemma LexNothing()
    ensures Lex("") == []
  {}

  function NameToks(names: seq<string>, first: bool): seq<Tok>
  { if names == [] then [] else (if first then [] else [Sym(",")]) + ([Lit(names[0])] + NameToks(names[1..], false)) }

  lemma NameToksSplit(names: seq<string>)
    requires names != []
    ensures NameToks(names, true) == [Lit(names[0])] + NameToks(names[1..], false)
    ensures NameToks(names, false) == [Sym(",")] + NameToks(names, true)
    ensures NameToks([], false) == []
  {}

  lemma {:induction false} NameToksRead(names: seq<string>)
    requires names != []
    ensures ReadNames(NameToks(names, true)) == Some(names)
  {
    hide NameToks;
    var ts := NameToks(names, true);
    NameToksSplit(names);
    if |names| == 1 {
      assert names == [names[0]] && names[1..] == [];
      assert ts == [Lit(names[0])];
    } else {
      NameToksRead(names[1..]);
      NameToksSplit(names[1..]);
      assert ts == [Lit(names[0]), Sym(",")] + NameToks(names[1..], true);
      assert ts[2..] == NameToks(names[1..], true);
      assert names == [names[0]] + names[1..];
    }
  }

  /** The lookup finds the ids of exactly the tags with one of the names. */
  lemma TagIdsAre(vs: seq<Value>, db: Db)
    requires |NamesText(vs, true)| < SQL_LEN
    ensures TagIds(vs, db) == Some(Numbers(vs) + IdsOf(db.tags, Names(vs)))
  {
    hide Lex, NamesText, ReadNames, NameToks, Numbers, Names;
    NamesTextLexes(vs, true);
    if Names(vs) == [] {
      NoNames(db.tags);
      assert Numbers(vs) + [] == Numbers(vs);
    } else {
      NameToksRead(Names(vs));
    }
  }

  lemma {:induction false} NoNames(tags: seq<TagRow>)
    ensures IdsOf(tags, []) == []
  {
    if tags != [] { NoNames(tags[1..]); }
  }

  lemma {:induction false} IdsOfMembers(tags: seq<TagRow>, names: seq<string>, id: int)
    ensures id in IdsOf(tags, names) <==> exists tag :: tag in tags && tag.name in names && tag.id == id
  {
    if tags != [] {
      IdsOfMembers(tags[1..], names, id);
      assert forall tag :: tag in tags <==> tag == tags[0] || tag in tags[1..];
    }
  }

  lemma {:induction false} NumbersMembers(vs: seq<Value>, id: int)
    ensures id in Numbers(vs) <==> Num(id) in vs
  {
    if vs != [] {
      NumbersMembers(vs[1..], id);
      assert Num(id) in vs <==> vs[0] == Num(id) || Num(id) in vs[1..];
    }
  }

  lemma {:induction false} NamesMembers(vs: seq<Value>, s: string)
    ensures s in Names(vs) <==> Str(s) in vs
  {
    if vs != [] {
      NamesMembers(vs[1..], s);
      assert Str(s) in vs <==> vs[0] == Str(s) || Str(s) in vs[1..];
    }
  }

  /** Looking names up first and testing ids afterwards is the same as testing tags directly. */
  lemma TwoStageLookup(vs: seq<Value>, row: TrackRow, db: Db)
    ensures var ids := Numbers(vs) + IdsOf(db.tags, Names(vs));
      (exists ft :: ft in db.fileTags && ft.file == row.id && ft.tag in ids)
      <==> exists v :: v in vs && Tagged(v, row, db)
  {
    var ids := Numbers(vs) + IdsOf(db.tags, Names(vs));
    if ft :| ft in db.fileTags && ft.file == row.id && ft.tag in ids {
      NumbersMembers(vs, ft.tag);
      IdsOfMembers(db.tags, Names(vs), ft.tag);
      assert ft == FileTag(row.id, ft.tag);
      if ft.tag in Numbers(vs) {
        assert Tagged(Num(ft.tag), row, db);
      } else {
        var tag :| tag in db.tags && tag.name in Names(vs) && tag.id == ft.tag;
        NamesMembers(vs, tag.name);
        assert Tagged(Str(tag.name), row, db);
      }
    }
    if v :| v in vs && Tagged(v, row, db) {
      match v
      case Num(n) =>
        NumbersMembers(vs, n);
        assert FileTag(row.id, n).tag in ids;
      case Str(s) =>
        NamesMembers(vs, s);
        var tag :| tag in db.tags && tag.name == s && FileTag(row.id, tag.id) in db.fileTags;
        IdsOfMembers(db.tags, Names(vs), tag.id);
        assert FileTag(row.id, tag.id).tag in ids;
    }
  }

  // ----- what becomes of a test on tags -----

  function TagOperands(t: Test): seq<Value> { if t.val.List? then t.val.vs else [t.val] }

  /** Tests whose operands are looked up and listed as ids. */
  predicate LooksUp(t: Test) { t.field == Tag && t.op != Re && !t.val.Num? }

  /** Tests that compare a missing column. */
  predicate ComparesNull(t: Test) { t.field == Tag && t.op != Re && t.val.Num? }

  function TestIds(t: Test, db: Db): seq<int>
  { Numbers(TagOperands(t)) + IdsOf(db.tags, Names(TagOperands(t))) }

  /** The names fit their buffer, there is an id to list, and the list is not too long: there is a text. */
  predicate HasText(t: Test, db: Db)
  {
    && |NamesText(TagOperands(t), true)| < SQL_LEN
    && TestIds(t, db) != [] && |IdsText(TestIds(t, db), true)| <= SQL_LEN
  }

  /** A list that needs its buffer to the last character loses that character to the terminator. */
  predicate Brimful(t: Test, db: Db) { |IdsText(TestIds(t, db), true)| == SQL_LEN }

  /** Numbers of one digit: without it there is no number. */
  predicate OneDigit(n: int) { -10 < n < 10 }

  /** A number without its last digit. */
  function Shortened(n: int): int { if n < 0 then -((-n) / 10) else n / 10 }

  function Last(ids: seq<int>): int
    requires ids != []
  { ids[|ids| - 1] }

  function Init(ids: seq<int>): seq<int>
    requires ids != []
  { ids[..|ids| - 1] }

  /** The ids a query lists. */
  function ListedIds(t: Test, db: Db): seq<int>
    requires HasText(t, db)
  {
    var ids := TestIds(t, db);
    if Brimful(t, db) then Init(ids) + [Shortened(Last(ids))] else ids
  }

  /** A test compiles unless it leaves no text, or a list that lost its last number. All tests but those on tags do. */
  predicate CompilesTest(t: Test, db: Db)
  { LooksUp(t) ==> HasText(t, db) && (Brimful(t, db) ==> !OneDigit(Last(TestIds(t, db)))) }

  predicate Compiles(e: Expr, db: Db)
  {
    match e
    case Self(t) => CompilesTest(t, db)
    case Not(x) => Compiles(x, db)
    case And(a, b) => Compiles(a, db) && Compiles(b, db)
    case Or(a, b) => Compiles(a, db) && Compiles(b, db)
  }

  // ----- the condition a filter is compiled to, and its tokens -----

  function ColumnToks(c: Column): seq<Tok>
  { if c.lower then [Word("lower"), Sym("("), Word(c.name), Sym(")")] else [Word(c.name)] }

  function IntToks(ids: seq<int>, first: bool): seq<Tok>
  { if ids == [] then [] else (if first then [] else [Sym(",")]) + ([Int(ids[0])] + IntToks(ids[1..], false)) }

  const SAME_FILE: seq<Tok> := [Word("t.id"), Sym("="), Word("ft.file_id"), Word("AND")]

  const CLOSE: seq<Tok> := [Sym(")")]

  function SameFile(): Cond { CCompare(Column("t.id", false), "=", OColumn("ft.file_id")) }

  function Rhs(t: Test): Operand
  {
    match t.val
    case Num(n) => if t.field == Year then OText(Pad4(n)) else OInt(n)
    case Str(s) => OText(s)
    case List(_) => OInt(0)
  }

  function RhsTok(o: Operand): Tok
  {
    match o
    case OInt(n) => Int(n)
    case OText(s) => Lit(s)
    case OColumn(w) => Word(w)
  }

  function ColumnOf(t: Test): Column
  {
    var c := EntryOf(TestType(t.field, t.op, TypeOf(t.val))).col;
    if c.Some? then c.value else Column("", false)
  }

  function TestCond(t: Test, db: Db): Cond
    requires CompilesTest(t, db)
  {
    if t.field != Tag then CCompare(ColumnOf(t), SqlOp(t.op), Rhs(t))
    else if t.op == Re then CExists(true, CAnd(SameFile(), CCompare(Column("tag.name", false), SqlOp(t.op), Rhs(t))))
    else if t.val.Num? then CNull("=", Rhs(t))
    else CExists(false, CAnd(SameFile(), CIn(Column("ft.tag_id", false), ListedIds(t, db))))
  }

  /** What is left of the last number of a list that was cut off. */
  function LastToks(n: int): seq<Tok>
  { if !OneDigit(n) then [Int(Shortened(n))] else if n < 0 then [Bad] else [] }

  function ListToks(t: Test, db: Db): seq<Tok>
    requires HasText(t, db)
  {
    var ids := TestIds(t, db);
    if Brimful(t, db) then IntToks(Init(ids), true) + ((if |ids| == 1 then [] else [Sym(",")]) + LastToks(Last(ids)))
    else IntToks(ids, true)
  }

  const NULL_TOKS: seq<Tok> := [Sym("("), Word("null"), Sym(")")]

  const IN_TOKS: seq<Tok> := [Word("ft.tag_id"), Word("IN"), Sym("(")]

  function TestToks(t: Test, db: Db): seq<Tok>
    requires LooksUp(t) ==> HasText(t, db)
  {
    if t.field != Tag then ColumnToks(ColumnOf(t)) + [Sym(SqlOp(t.op)), RhsTok(Rhs(t))]
    else if t.op == Re then
      (EXISTS_HEAD + JOIN_TAGS + WHERE) + (SAME_FILE + ([Word("tag.name"), Sym(SqlOp(t.op)), RhsTok(Rhs(t))] + CLOSE))
    else if t.val.Num? then NULL_TOKS + [Sym("="), Int(t.val.n)]
    else (EXISTS_HEAD + WHERE) + (SAME_FILE + (IN_TOKS + (ListToks(t, db) + (CLOSE + CLOSE))))
  }

  function ExprCond(e: Expr, db: Db): Cond
    requires Compiles(e, db)
  {
    match e
    case Self(t) => TestCond(t, db)
    case Not(x) => CNot(ExprCond(x, db))
    case And(a, b) => CAnd(ExprCond(a, db), ExprCond(b, db))
    case Or(a, b) => COr(ExprCond(a, db), ExprCond(b, db))
  }

  function LeafToks(t: Test, db: Db): seq<Tok> { if LooksUp(t) && !HasText(t, db) then [] else TestToks(t, db) }

  function ExprToks(e: Expr, db: Db): seq<Tok>
  {
    match e
    case Self(t) => LeafToks(t, db)
    case Not(x) => [Word("NOT"), Sym("(")] + (ExprToks(x, db) + CLOSE)
    case And(a, b) => [Sym("(")] + (ExprToks(a, db) + ([Sym(")"), Word("AND"), Sym("(")] + (ExprToks(b, db) + CLOSE)))
    case Or(a, b) => [Sym("(")] + (ExprToks(a, db) + ([Sym(")"), Word("OR"), Sym("(")] + (ExprToks(b, db) + CLOSE)))
  }

  // ----- evaluation -----

  lemma {:induction false} PaddedValue(k: nat, d: string)
    requires AllDigits(d) && d != ""
    ensures var p := seq(k, _ => '0') + d; AllDigits(p) && DigitsValue(p) == DigitsValue(d)
  {
    var zeros := seq(k, _ => '0');
    var p := zeros + d;
    assert p[..|p| - 1] == zeros + d[..|d| - 1] && p[|p| - 1] == d[|d| - 1];
    if |d| > 1 {
      PaddedValue(k, d[..|d| - 1]);
    } else {
      assert p[..|p| - 1] == zeros;
      ZerosValue(k);
      assert d[..0] == "";
    }
  }

  lemma {:induction false} ZerosValue(k: nat)
    ensures var zeros := seq(k, _ => '0'); AllDigits(zeros) && DigitsValue(zeros) == 0
  {
    if k > 0 {
      ZerosValue(k - 1);
      assert seq(k, _ => '0')[..k - 1] == seq(k - 1, _ => '0');
    }
  }

  /** A padded number compares like the number. */
  lemma Pad4Reads(n: int)
    ensures ReadNumber(Pad4(n)) == Some(n)
  {
    hide Digits, DigitsValue;
    var m := if n < 0 then -n else n;
    var d := Digits(m);
    DigitsRoundTrip(m);
    if n < 0 {
      var k := if |d| < 3 then 3 - |d| else 0;
      PaddedValue(k, d);
      assert Pad4(n)[1..] == seq(k, _ => '0') + d;
      assert !IsDigit(Pad4(n)[0]);
    } else {
      PaddedValue(if |d| < 4 then 4 - |d| else 0, d);
    }
  }

  lemma LowerIsFixed(s: string)
    requires IsLowerCase(s)
    ensures LowerAll(s) == s
  {}

  /** The file carries one of these tags. */
  ghost predicate Carries(file: int, ids: seq<int>, db: Db)
  { exists ft :: ft in db.fileTags && ft.file == file && ft.tag in ids }

  /** What the database makes of a test: nothing is known of a comparison with null, and ids are taken as listed. */
  ghost function TestTruth(t: Test, row: TrackRow, db: Db): Truth
    requires CompilesTest(t, db)
  {
    if ComparesNull(t) then Unknown
    else if LooksUp(t) then Known(Carries(row.id, ListedIds(t, db), db))
    else Known(TestHolds(t, row, db))
  }

  ghost function ExprTruth(e: Expr, row: TrackRow, db: Db): Truth
    requires Compiles(e, db)
  {
    match e
    case Self(t) => TestTruth(t, row, db)
    case Not(x) => Negated(ExprTruth(x, row, db))
    case And(a, b) => Both(ExprTruth(a, row, db), ExprTruth(b, row, db))
    case Or(a, b) => Either(ExprTruth(a, row, db), ExprTruth(b, row, db))
  }

  /** Every test but those on tags is one comparison, which evaluates as the test holds. */
  lemma ScalarEval(t: Test, row: TrackRow, db: Db)
    requires AllowedTest(t) && AcceptedValue(t.val) && t.field != Tag
    ensures Eval(TestCond(t, db), Env(row, None, None), db) == Some(Known(TestHolds(t, row, db)))
  {
    hide Allowed, Pad4, ReadNumber;
    AllowedMeans(TestType(t.field, t.op, TypeOf(t.val)));
    if t.field == Year { Pad4Reads(t.val.n); }
    if t.val.Str? { LowerIsFixed(t.val.s); }
  }

  /** The condition for tags evaluates as carrying one of the listed ids. */
  lemma TagEval(t: Test, row: TrackRow, db: Db)
    requires LooksUp(t) && CompilesTest(t, db)
    ensures Eval(TestCond(t, db), Env(row, None, None), db) == Some(Known(Carries(row.id, ListedIds(t, db), db)))
  {
    hide HasText, Brimful, ListedIds, TestIds;
    var ids, env := ListedIds(t, db), Env(row, None, None);
    var cond := CAnd(SameFile(), CIn(Column("ft.tag_id", false), ids));
    forall ft: FileTag
      ensures Eval(cond, env.(ft := Some(ft)), db) == Some(Known(ft.file == row.id && ft.tag in ids))
    {
      assert Eval(SameFile(), env.(ft := Some(ft)), db) == Some(Known(row.id == ft.file));
      assert Eval(CIn(Column("ft.tag_id", false), ids), env.(ft := Some(ft)), db) == Some(Known(ft.tag in ids));
    }
  }

  /** If the list was not cut off, that is what the test says. */
  lemma TagTruth(t: Test, row: TrackRow, db: Db)
    requires AllowedTest(t) && LooksUp(t)
    ensures Carries(row.id, TestIds(t, db), db) <==> TestHolds(t, row, db)
  {
    hide Allowed, Numbers, IdsOf, Names;
    AllowedMeans(TestType(t.field, t.op, TypeOf(t.val)));
    TwoStageLookup(TagOperands(t), row, db);
    if !t.val.List? {
      assert t.val in TagOperands(t);
    }
  }

  function MatchCond(t: Test): Cond { CAnd(SameFile(), CCompare(Column("tag.name", false), SqlOp(t.op), Rhs(t))) }

  lemma MatchEval(t: Test, row: TrackRow, ft: FileTag, tag: TagRow, db: Db)
    requires t.op == Re && t.val.Str?
    ensures Eval(MatchCond(t), Env(row, Some(ft), Some(tag)), db)
      == Some(Known(ft.file == row.id && db.matches(t.val.s, tag.name)))
  {
    var env := Env(row, Some(ft), Some(tag));
    assert Eval(SameFile(), env, db) == Some(Known(row.id == ft.file));
    assert Eval(MatchCond(t).y, env, db) == Some(Known(db.matches(t.val.s, tag.name)));
  }

  lemma TagReEval(t: Test, row: TrackRow, db: Db)
    requires AllowedTest(t) && t.field == Tag && t.op == Re
    ensures Eval(TestCond(t, db), Env(row, None, None), db) == Some(Known(TestHolds(t, row, db)))
  {
    hide Allowed, MatchCond;
    AllowedMeans(TestType(t.field, t.op, TypeOf(t.val)));
    var env := Env(row, None, None);
    assert TestCond(t, db) == CExists(true, MatchCond(t)) by { MatchIs(t, db); }
    forall ft: FileTag, tag: TagRow
      ensures Eval(MatchCond(t), env.(ft := Some(ft), tag := Some(tag)), db)
        == Some(Known(ft.file == row.id && db.matches(t.val.s, tag.name)))
    {
      MatchEval(t, row, ft, tag, db);
    }
    forall ft: FileTag, tag: TagRow | ft.tag == tag.id && ft.file == row.id
      ensures ft == FileTag(row.id, tag.id)
    {}
  }

  lemma MatchIs(t: Test, db: Db)
    requires t.field == Tag && t.op == Re
    ensures TestCond(t, db) == CExists(true, MatchCond(t))
  {}

  /** The condition a filter is compiled to evaluates as the database's view of the filter. */
  lemma {:induction false} ExprEval(e: Expr, row: TrackRow, db: Db)
    requires Accepted(e) && Compiles(e, db)
    ensures Eval(ExprCond(e, db), Env(row, None, None), db) == Some(ExprTruth(e, row, db))
  {
    hide TestHolds, CompilesTest, AllowedTest, AcceptedValue;
    match e
    case Self(t) =>
      if t.field != Tag { ScalarEval(t, row, db); }
      else if t.op == Re { TagReEval(t, row, db); }
      else if !t.val.Num? { TagEval(t, row, db); }
    case Not(x) => ExprEval(x, row, db);
    case And(a, b) => ExprEval(a, row, db); ExprEval(b, row, db);
    case Or(a, b) => ExprEval(a, row, db); ExprEval(b, row, db);
  }

  // ----- the tokens are read as that condition -----

  /** What may follow an operand: nothing, or the parenthesis that closes it. */
  predicate Ends(ts: seq<Tok>) { ts == [] || ts[0] == Sym(")") }

  /** A primary that is not continued by AND or OR is read alike on every level. */
  lemma Alone(ts: seq<Tok>, x: Cond, rest: seq<Tok>)
    requires ts != [] && ts[0] != Word("NOT") && ReadPrimary(ts) == Some((x, rest)) && Ends(rest)
    ensures ReadOr(ts) == ReadAnd(ts) == ReadNot(ts) == Some((x, rest))
  {
    hide ReadPrimary;
  }

  predicate PlainName(w: string) { w != "EXISTS" && w != "NOT" && w != "lower" }

  lemma ReadScalar(col: Column, op: string, o: Operand, rest: seq<Tok>)
    requires PlainName(col.name) && op in COMPARISONS && Ends(rest)
    ensures ReadOr(ColumnToks(col) + [Sym(op), RhsTok(o)] + rest) == Some((CCompare(col, op, o), rest))
    ensures ReadAnd(ColumnToks(col) + [Sym(op), RhsTok(o)] + rest) == Some((CCompare(col, op, o), rest))
  {
    var ts := ColumnToks(col) + [Sym(op), RhsTok(o)] + rest;
    var k := |ColumnToks(col)|;
    assert ts[k..] == [Sym(op), RhsTok(o)] + rest;
    assert ts[k..][2..] == rest;
    assert ReadTest(ts) == Some((CCompare(col, op, o), rest));
    assert ts[0] != Word("EXISTS") && EXISTS_HEAD[0] == Word("EXISTS");
    assert !(EXISTS_HEAD + WHERE <= ts) && !(EXISTS_HEAD + JOIN_TAGS + WHERE <= ts);
    Alone(ts, CCompare(col, op, o), rest);
  }

  lemma ReadSameFile(tail: seq<Tok>, y: Option<Cond>, rest: seq<Tok>)
    requires ReadAnd(tail) == Read(y, rest) && rest != [] && Ends(rest)
    ensures ReadOr(SAME_FILE + tail) == if y.Some? then Some((CAnd(SameFile(), y.value), rest)) else None
  {
    var ts := SAME_FILE + tail;
    assert ts[1..][2..] == [Word("AND")] + tail;
    assert ts[1..] == [ts[1], ts[2], ts[3]] + tail;
    assert ReadRhs(ts[1..]) == Some(("=", OColumn("ft.file_id")));
    assert ReadTest(ts) == Some((SameFile(), [Word("AND")] + tail));
    assert ts[0] != Word("EXISTS") && EXISTS_HEAD[0] == Word("EXISTS");
    assert !(EXISTS_HEAD + WHERE <= ts) && !(EXISTS_HEAD + JOIN_TAGS + WHERE <= ts);
    assert ReadNot(ts) == Some((SameFile(), [Word("AND")] + tail));
    assert ([Word("AND")] + tail)[1..] == tail;
    assert ReadAnd(ts) == if y.Some? then Some((CAnd(SameFile(), y.value), rest)) else None;
  }

  lemma IntToksSplit(ids: seq<int>)
    requires ids != []
    ensures IntToks(ids, true) == [Int(ids[0])] + IntToks(ids[1..], false)
    ensures IntToks(ids, false) == [Sym(",")] + IntToks(ids, true)
    ensures IntToks([], false) == []
  {}

  lemma PairFront(a: Tok, b: Tok, more: seq<Tok>, tail: seq<Tok>)
    ensures [a] + ([b] + more) + tail == [a, b] + (more + tail)
  {}

  /** A list of one number, or a number, a comma and a shorter list. */
  lemma IntToksFront(ids: seq<int>, tail: seq<Tok>)
    requires ids != []
    ensures |ids| == 1 ==> IntToks(ids, true) + tail == [Int(ids[0])] + tail
    ensures |ids| > 1 ==> IntToks(ids, true) + tail == [Int(ids[0]), Sym(",")] + (IntToks(ids[1..], true) + tail)
  {
    hide IntToks;
    IntToksSplit(ids);
    if |ids| == 1 {
      assert ids[1..] == [];
    } else {
      IntToksSplit(ids[1..]);
      PairFront(Int(ids[0]), Sym(","), IntToks(ids[1..], true), tail);
    }
  }

  lemma TwoAhead(a: Tok, b: Tok, tail: seq<Tok>)
    ensures var ts := [a, b] + tail; |ts| >= 2 && ts[0] == a && ts[1] == b && ts[2..] == tail
    ensures [a] + ([b] + tail) == [a, b] + tail
  {}

  lemma {:induction false} ReadIdList(ids: seq<int>, rest: seq<Tok>)
    requires ids != []
    ensures ReadInts(IntToks(ids, true) + (CLOSE + rest)) == Some((ids, rest))
  {
    hide IntToks;
    IntToksFront(ids, CLOSE + rest);
    if |ids| == 1 {
      assert ids == [ids[0]];
      TwoAhead(Int(ids[0]), Sym(")"), rest);
    } else {
      ReadIdList(ids[1..], rest);
      TwoAhead(Int(ids[0]), Sym(","), IntToks(ids[1..], true) + (CLOSE + rest));
      assert ids == [ids[0]] + ids[1..];
    }
  }

  /** A list that ends in a comma, or in something that is not a number, is an error. */
  lemma {:induction false} ReadBrokenList(ids: seq<int>, junk: seq<Tok>)
    requires ids != [] && (junk == [] || !junk[0].Int?)
    ensures ReadInts(IntToks(ids, true) + ([Sym(",")] + junk)) == None
  {
    hide IntToks;
    IntToksFront(ids, [Sym(",")] + junk);
    if |ids| == 1 {
      TwoAhead(Int(ids[0]), Sym(","), junk);
    } else {
      ReadBrokenList(ids[1..], junk);
      TwoAhead(Int(ids[0]), Sym(","), IntToks(ids[1..], true) + ([Sym(",")] + junk));
    }
  }

  lemma ReadIn(tail: seq<Tok>)
    ensures ReadAnd(IN_TOKS + tail) == ReadAndIn(tail)
  {
    hide ReadInts;
    var ts := IN_TOKS + tail;
    assert ts[1..] == [Word("IN"), Sym("(")] + tail;
    assert ts[1..][2..] == tail;
    assert ReadTest(ts) == match ReadInts(tail)
      case None => None
      case Some((ids, rest)) => Some((CIn(Column("ft.tag_id", false), ids), rest));
    assert ts[0] != Word("EXISTS") && EXISTS_HEAD[0] == Word("EXISTS");
    assert !(EXISTS_HEAD + WHERE <= ts) && !(EXISTS_HEAD + JOIN_TAGS + WHERE <= ts);
    assert ReadNot(ts) == ReadTest(ts);
  }

  /** What follows the words of a list membership, read on the level of AND. */
  function ReadAndIn(tail: seq<Tok>): Option<(Cond, seq<Tok>)>
  {
    match ReadInts(tail)
    case None => None
    case Some((ids, rest)) =>
      var x := CIn(Column("ft.tag_id", false), ids);
      if rest == [] || rest[0] != Word("AND") then Some((x, rest))
      else match ReadAnd(rest[1..])
        case None => None
        case Some((y, rest')) => Some((CAnd(x, y), rest'))
  }

  lemma ReadExistsClause(joined: bool, body: seq<Tok>, x: Option<Cond>, rest: seq<Tok>)
    requires ReadOr(body) == Read(x, CLOSE + rest) && Ends(rest)
    ensures var head := if joined then EXISTS_HEAD + JOIN_TAGS + WHERE else EXISTS_HEAD + WHERE;
      ReadOr(head + body) == if x.Some? then Some((CExists(joined, x.value), rest)) else None
  {
    hide ReadOr, ReadTest;
    var head := if joined then EXISTS_HEAD + JOIN_TAGS + WHERE else EXISTS_HEAD + WHERE;
    var ts := head + body;
    assert ts[|head|..] == body;
    assert ts[0] == Word("EXISTS");
    if joined {
      assert ts[7] == Word("INNER") && (EXISTS_HEAD + WHERE)[7] == Word("WHERE");
      assert !(EXISTS_HEAD + WHERE <= ts);
      assert ReadPrimary(ts) == ReadExists(ts, true, |head|);
    } else {
      assert ReadPrimary(ts) == ReadExists(ts, false, |head|);
    }
    assert (CLOSE + rest)[1..] == rest;
    if x.Some? { Alone(ts, CExists(joined, x.value), rest); } else { NotAlone(ts); }
  }

  lemma Assoc3(a: seq<Tok>, b: seq<Tok>, c: seq<Tok>)
    ensures a + (b + c) == a + b + c
  {}

  lemma Assoc4(a: seq<Tok>, b: seq<Tok>, c: seq<Tok>, d: seq<Tok>)
    ensures (a + (b + c)) + d == a + (b + (c + d))
  {}

  lemma Assoc5(a: seq<Tok>, b: seq<Tok>, c: seq<Tok>, d: seq<Tok>, e: seq<Tok>)
    ensures (a + (b + (c + d))) + e == a + (b + (c + (d + e)))
  {}

  lemma Assoc6(a: seq<Tok>, b: seq<Tok>, c: seq<Tok>, d: seq<Tok>, e: seq<Tok>, f: seq<Tok>)
    ensures (a + (b + (c + (d + e)))) + f == a + (b + (c + (d + (e + f))))
  {}

  lemma ColumnIsPlain(t: Test)
    requires AllowedTest(t) && t.field != Tag
    ensures PlainName(ColumnOf(t).name) && IsWord(ColumnOf(t).name)
  {
    hide PlainName, IsWord, AllowedTest;
    ColumnNames(t);
    PlainNames(ColumnOf(t).name);
  }

  const COLUMNS :=
    {"dur", "lplay", "album_publish_year", "title", "artist_name", "artist_id", "album_name", "album_id", "album_pos"}

  lemma ColumnNames(t: Test)
    requires AllowedTest(t) && t.field != Tag
    ensures ColumnOf(t).name in COLUMNS
  {
    hide Allowed;
    AllowedMeans(TestType(t.field, t.op, TypeOf(t.val)));
  }

  lemma PlainNames(name: string)
    requires name in COLUMNS
    ensures PlainName(name) && IsWord(name)
  {}

  /** A list that was not cut off, or kept its last number, is that of the listed ids. */
  lemma ListToksAre(t: Test, db: Db)
    requires LooksUp(t) && CompilesTest(t, db)
    ensures ListToks(t, db) == IntToks(ListedIds(t, db), true) && ListedIds(t, db) != []
  {
    hide NamesText, IdsText, TestIds, IntToks;
    if Brimful(t, db) {
      var ids := TestIds(t, db);
      IntToksSnoc(Init(ids), true, Shortened(Last(ids)));
      NoIntToks();
    }
  }

  lemma NoIntToks()
    ensures IntToks([], true) == []
  {}

  lemma {:induction false} IntToksSnoc(ids: seq<int>, first: bool, n: int)
    ensures IntToks(ids + [n], first)
      == IntToks(ids, first) + ((if ids == [] && first then [] else [Sym(",")]) + [Int(n)])
  {
    var all := ids + [n];
    if ids == [] {
      assert all[1..] == [];
    } else {
      assert all[1..] == ids[1..] + [n];
      IntToksSnoc(ids[1..], false, n);
    }
  }

  /** The list is read if and only if it compiles. */
  lemma ListRead(t: Test, db: Db, rest: seq<Tok>)
    requires LooksUp(t) && HasText(t, db)
    ensures ReadInts(ListToks(t, db) + (CLOSE + rest)) ==
      if CompilesTest(t, db) then Some((ListedIds(t, db), rest)) else None
  {
    hide ReadInts, NamesText, IdsText, TestIds, IntToks;
    if CompilesTest(t, db) {
      ListToksAre(t, db);
      ReadIdList(ListedIds(t, db), rest);
    } else {
      var ids := TestIds(t, db);
      ManyIds(ids);
      var junk := LastToks(Last(ids)) + (CLOSE + rest);
      ReadBrokenList(Init(ids), junk);
      Assoc4(IntToks(Init(ids), true), [Sym(",")], LastToks(Last(ids)), CLOSE + rest);
    }
  }

  /** A list of that length with a short last number has other numbers in front of it. */
  lemma ManyIds(ids: seq<int>)
    requires ids != [] && OneDigit(Last(ids)) && |IdsText(ids, true)| == SQL_LEN
    ensures |ids| > 1
  {
    hide IdsText;
    var n := Last(ids);
    OneId(n);
    assert |ids| == 1 ==> ids == [n];
  }

  lemma OneId(n: int)
    ensures OneDigit(n) ==> |IdsText([n], true)| <= 2
  {
    assert [n][1..] == [];
    assert OneDigit(n) ==> |Dec(n)| <= 2;
  }

  lemma TagRead(t: Test, db: Db, rest: seq<Tok>)
    requires LooksUp(t) && HasText(t, db) && Ends(rest)
    ensures ReadOr(TestToks(t, db) + rest) == if CompilesTest(t, db) then Some((TestCond(t, db), rest)) else None
  {
    hide ReadOr, ReadAnd, ReadInts, NamesText, IdsText, TestIds, ListToks, ListedIds, CompilesTest, HasText;
    var list := ListToks(t, db);
    var more := list + (CLOSE + (CLOSE + rest));
    var tail := IN_TOKS + more;
    ListRead(t, db, CLOSE + rest);
    ReadIn(more);
    var x := if CompilesTest(t, db) then Some(CIn(Column("ft.tag_id", false), ListedIds(t, db))) else None;
    assert ReadAnd(tail) == Read(x, CLOSE + rest);
    ReadSameFile(tail, x, CLOSE + rest);
    var y := if x.Some? then Some(CAnd(SameFile(), x.value)) else None;
    ReadExistsClause(false, SAME_FILE + tail, y, rest);
    Assoc6(EXISTS_HEAD + WHERE, SAME_FILE, IN_TOKS, list, CLOSE + CLOSE, rest);
    Assoc3(CLOSE, CLOSE, rest);
  }

  lemma NullRead(t: Test, db: Db, rest: seq<Tok>)
    requires ComparesNull(t) && Ends(rest)
    ensures ReadOr(TestToks(t, db) + rest) == Some((TestCond(t, db), rest))
  {
    hide ReadOr, ReadAnd;
    var ts := TestToks(t, db) + rest;
    assert ts == NULL_TOKS + ([Sym("="), Int(t.val.n)] + rest);
    assert ts[3..] == [Sym("="), Int(t.val.n)] + rest;
    assert ts[5..] == rest;
    assert [Sym("("), Word("null"), Sym(")")] <= ts;
    assert ReadPrimary(ts) == Some((TestCond(t, db), rest));
    Alone(ts, TestCond(t, db), rest);
  }

  lemma TestRead(t: Test, db: Db, rest: seq<Tok>)
    requires AllowedTest(t) && !LooksUp(t) && Ends(rest)
    ensures ReadOr(TestToks(t, db) + rest) == Some((TestCond(t, db), rest))
  {
    hide ReadOr, ReadAnd, AllowedTest, ColumnToks, ColumnOf, Rhs, RhsTok;
    if t.field != Tag {
      ColumnIsPlain(t);
      ScalarOp(t);
      ReadScalar(ColumnOf(t), SqlOp(t.op), Rhs(t), rest);
    } else if t.op == Re {
      var test := [Word("tag.name"), Sym(SqlOp(t.op)), RhsTok(Rhs(t))];
      assert ColumnToks(Column("tag.name", false)) + [Sym(SqlOp(t.op)), RhsTok(Rhs(t))] == test by { TagNameToks(t); }
      ReadScalar(Column("tag.name", false), SqlOp(t.op), Rhs(t), CLOSE + rest);
      ReadSameFile(test + (CLOSE + rest), Some(CCompare(Column("tag.name", false), SqlOp(t.op), Rhs(t))), CLOSE + rest);
      ReadExistsClause(true, SAME_FILE + (test + (CLOSE + rest)), Some(TestCond(t, db).where), rest);
      Assoc5(EXISTS_HEAD + JOIN_TAGS + WHERE, SAME_FILE, test, CLOSE, rest);
    } else {
      NullRead(t, db, rest);
    }
  }

  lemma ScalarOp(t: Test)
    requires AllowedTest(t) && t.field != Tag
    ensures SqlOp(t.op) in COMPARISONS
  {
    hide Allowed;
    AllowedMeans(TestType(t.field, t.op, TypeOf(t.val)));
  }

  lemma TagNameToks(t: Test)
    ensures ColumnToks(Column("tag.name", false)) + [Sym(SqlOp(t.op)), RhsTok(Rhs(t))]
      == [Word("tag.name"), Sym(SqlOp(t.op)), RhsTok(Rhs(t))]
  {}

  /** What reading an operand yields: its condition in front of the rest, or nothing. */
  function Read(x: Option<Cond>, rest: seq<Tok>): Option<(Cond, seq<Tok>)>
  { if x.Some? then Some((x.value, rest)) else None }

  lemma ReadParens(ts: seq<Tok>, x: Option<Cond>, rest: seq<Tok>)
    requires ReadOr(ts) == Read(x, CLOSE + rest) && !([Word("null"), Sym(")")] <= ts)
    ensures ReadPrimary([Sym("(")] + ts) == Read(x, rest)
  {
    hide ReadOr, ReadTest, ReadExists;
    var all := [Sym("(")] + ts;
    assert all[1..] == ts && (CLOSE + rest)[1..] == rest;
    assert |ts| < 2 || ts[0] != Word("null") || ts[1] != Sym(")");
    assert |all| < 3 || all[1] != Word("null") || all[2] != Sym(")");
  }

  lemma NotAlone(ts: seq<Tok>)
    requires ReadPrimary(ts) == None && (ts == [] || ts[0] != Word("NOT"))
    ensures ReadOr(ts) == ReadAnd(ts) == ReadNot(ts) == None
  {
    hide ReadPrimary;
  }

  lemma ReadNegation(ts: seq<Tok>, x: Option<Cond>, rest: seq<Tok>)
    requires ReadOr(ts) == Read(x, CLOSE + rest) && Ends(rest) && !([Word("null"), Sym(")")] <= ts)
    ensures ReadOr([Word("NOT"), Sym("(")] + ts) == if x.Some? then Some((CNot(x.value), rest)) else None
  {
    hide ReadPrimary;
    ReadParens(ts, x, rest);
    var inner := [Sym("(")] + ts;
    if x.Some? { Alone(inner, x.value, rest); } else { NotAlone(inner); }
    var all := [Word("NOT"), Sym("(")] + ts;
    assert all[1..] == inner;
    assert ReadNot(all) == if x.Some? then Some((CNot(x.value), rest)) else None;
  }

  lemma ReadPair(or: bool, ts: seq<Tok>, x: Option<Cond>, ts': seq<Tok>, y: Option<Cond>, rest: seq<Tok>)
    requires Ends(rest)
    requires var mid := [if or then Word("OR") else Word("AND"), Sym("(")] + ts';
      ReadOr(ts) == Read(x, CLOSE + mid)
    requires ReadOr(ts') == Read(y, CLOSE + rest)
    requires !([Word("null"), Sym(")")] <= ts) && !([Word("null"), Sym(")")] <= ts')
    ensures ReadOr([Sym("(")] + ts) ==
      if x.Some? && y.Some? then Some((if or then COr(x.value, y.value) else CAnd(x.value, y.value), rest)) else None
  {
    hide ReadPrimary;
    var word := if or then Word("OR") else Word("AND");
    var mid := [word, Sym("(")] + ts';
    var all, inner := [Sym("(")] + ts, [Sym("(")] + ts';
    ReadParens(ts, x, mid);
    ReadParens(ts', y, rest);
    if y.Some? { Alone(inner, y.value, rest); } else { NotAlone(inner); }
    assert mid[1..] == inner;
    assert ReadNot(all) == Read(x, mid);
  }

  lemma LeafRead(t: Test, db: Db, rest: seq<Tok>)
    requires AllowedTest(t) && Ends(rest)
    ensures ReadOr(LeafToks(t, db) + rest) == if CompilesTest(t, db) then Some((TestCond(t, db), rest)) else None
  {
    hide AllowedTest, TestToks, TestCond, HasText, Brimful, TestIds;
    if !LooksUp(t) {
      TestRead(t, db, rest);
    } else if HasText(t, db) {
      TagRead(t, db, rest);
    } else {
      var ts := LeafToks(t, db) + rest;
      assert ts == rest;
      assert EXISTS_HEAD[0] == Word("EXISTS");
      assert !(EXISTS_HEAD + WHERE <= ts) && !(EXISTS_HEAD + JOIN_TAGS + WHERE <= ts);
      NotAlone(ts);
    }
  }

  /** No filter's tokens start with a null that nothing is compared with. */
  lemma NotNull(e: Expr, db: Db, rest: seq<Tok>)
    requires Accepted(e) && Ends(rest)
    ensures !([Word("null"), Sym(")")] <= ExprToks(e, db) + rest)
  {
    hide AllowedTest, ListToks, HasText, CompilesTest, ExprToks;
    FirstTok(e, db);
    var ts := ExprToks(e, db) + rest;
    assert ts == [] || ts[0] != Word("null");
  }

  lemma FirstTok(e: Expr, db: Db)
    requires Accepted(e)
    ensures ExprToks(e, db) == [] || ExprToks(e, db)[0] != Word("null")
  {
    hide AllowedTest, ListToks, HasText, PlainName, IsWord;
    if e.Self? && e.test.field != Tag {
      var t := e.test;
      ColumnNames(t);
      assert ColumnToks(ColumnOf(t))[0] == Word("lower") || ColumnToks(ColumnOf(t))[0] == Word(ColumnOf(t).name);
    }
  }

  lemma {:induction false} ExprRead(e: Expr, db: Db, rest: seq<Tok>)
    requires Accepted(e) && Ends(rest)
    ensures ReadOr(ExprToks(e, db) + rest) == if Compiles(e, db) then Some((ExprCond(e, db), rest)) else None
    decreases e, 1
  {
    hide ReadOr, TestToks, TestCond, CompilesTest, AllowedTest;
    match e
    case Self(t) => LeafRead(t, db, rest);
    case Not(x) =>
      ExprRead(x, db, CLOSE + rest);
      NotNull(x, db, CLOSE + rest);
      ReadNegation(ExprToks(x, db) + (CLOSE + rest), if Compiles(x, db) then Some(ExprCond(x, db)) else None, rest);
      Assoc4([Word("NOT"), Sym("(")], ExprToks(x, db), CLOSE, rest);
    case And(a, b) => PairRead(e, false, a, b, db, rest);
    case Or(a, b) => PairRead(e, true, a, b, db, rest);
  }

  lemma {:induction false} PairRead(e: Expr, or: bool, a: Expr, b: Expr, db: Db, rest: seq<Tok>)
    requires e == (if or then Or(a, b) else And(a, b)) && Accepted(e) && Ends(rest)
    ensures ReadOr(ExprToks(e, db) + rest) == if Compiles(e, db) then Some((ExprCond(e, db), rest)) else None
    decreases e, 0
  {
    hide ReadOr, TestToks, TestCond, CompilesTest, AllowedTest;
    var word := if or then Word("OR") else Word("AND");
    var tb := ExprToks(b, db) + (CLOSE + rest);
    var mid := [word, Sym("(")] + tb;
    var ta := ExprToks(a, db) + (CLOSE + mid);
    ExprRead(b, db, CLOSE + rest);
    ExprRead(a, db, CLOSE + mid);
    NotNull(b, db, CLOSE + rest);
    NotNull(a, db, CLOSE + mid);
    ReadPair(or, ta, if Compiles(a, db) then Some(ExprCond(a, db)) else None,
             tb, if Compiles(b, db) then Some(ExprCond(b, db)) else None, rest);
    Assoc6([Sym("(")], ExprToks(a, db), [Sym(")"), word, Sym("(")], ExprToks(b, db), CLOSE, rest);
    Assoc3(CLOSE, [word, Sym("(")], tb);
    assert CLOSE + [word, Sym("(")] == [Sym(")"), word, Sym("(")];
  }

  // ----- the text is lexed as those tokens -----

  /** What may follow an operand's text. */
  predicate Apart(s: string) { s == "" || s[0] == ' ' }

  lemma LexColumn(c: Column, s: string)
    requires IsWord(c.name) && s != "" && Apart(s)
    ensures Lex(ColumnText(Some(c)) + s) == ColumnToks(c) + Lex(s)
  {
    hide Lex, IsWord;
    if c.lower { LexLowered(c.name, s); } else { LexWord(c.name, s); }
  }

  lemma LexLowered(name: string, s: string)
    requires IsWord(name)
    ensures Lex("lower" + ("(" + (name + ")")) + s) == [Word("lower"), Sym("("), Word(name), Sym(")")] + Lex(s)
  {
    hide Lex, IsWord;
    LexSym(")", s);
    LexWord(name, ")" + s);
    LexSym("(", name + (")" + s));
    assert IsWord("lower") by { LowerIsWord(); }
    LexWord("lower", "(" + (name + (")" + s)));
    LoweredText(name, s);
  }

  lemma LowerIsWord()
    ensures IsWord("lower")
  {}

  lemma LoweredText(name: string, s: string)
    ensures "lower" + ("(" + (name + ")")) + s == "lower" + ("(" + (name + (")" + s)))
  {}

  function RhsText(t: Test): string
  {
    match t.val
    case Num(n) => if t.field == Year then "'" + Pad4(n) + "'" else Dec(n)
    case Str(s) => Quoted(s)
    case List(_) => ""
  }

  lemma NoQuotes(n: int)
    ensures Escape(Pad4(n)) == Pad4(n)
  {
    hide Escape;
    EscapeLength(Pad4(n));
  }

  lemma LexRhs(t: Test, s: string)
    requires !t.val.List? && (s == "" || s[0] == ' ' || s[0] == ')')
    ensures Lex(RhsText(t) + s) == [RhsTok(Rhs(t))] + Lex(s)
  {
    hide Lex, Escape, Pad4, Dec;
    match t.val
    case Num(n) =>
      if t.field == Year {
        NoQuotes(n);
        LexLiteral(Pad4(n), s);
      } else {
        LexInt(n, s);
      }
    case Str(x) => LexLiteral(x, s);
  }

  lemma ScalarText(t: Test, db: Db)
    requires AllowedTest(t) && t.field != Tag
    ensures TestText(t, db) == ColumnText(Some(ColumnOf(t))) + (" " + (SqlOp(t.op) + (" " + RhsText(t))))
    ensures SqlOp(t.op) in {"=", "<", "<=", ">", ">=", "~*"} && !t.val.List?
  {
    hide Find, Allowed, Pad4, Dec, Escape;
    var tt := TestType(t.field, t.op, TypeOf(t.val));
    AllowedMeans(tt);
    AllowedHasEntry(tt);
  }

  lemma ScalarLex(t: Test, db: Db, s: string)
    requires AllowedTest(t) && t.field != Tag && Apart(s)
    ensures Lex(TestText(t, db) + s) == TestToks(t, db) + Lex(s)
  {
    hide Lex, AllowedTest, TestText, ColumnText, ColumnToks, ColumnOf, IsWord, Rhs, RhsTok, RhsText;
    ScalarText(t, db);
    ColumnIsPlain(t);
    var c, op, r := ColumnText(Some(ColumnOf(t))), SqlOp(t.op), RhsText(t);
    LexRhs(t, s);
    LexSpace(r + s);
    LexSym(op, " " + (r + s));
    LexSpace(op + (" " + (r + s)));
    LexColumn(ColumnOf(t), " " + (op + (" " + (r + s))));
    TextAssoc(c, op, r, s);
    TokAssoc(ColumnToks(ColumnOf(t)), Sym(op), RhsTok(Rhs(t)), Lex(s));
  }

  lemma TextAssoc(c: string, op: string, r: string, s: string)
    ensures (c + (" " + (op + (" " + r)))) + s == c + (" " + (op + (" " + (r + s))))
  {}

  lemma TokAssoc(c: seq<Tok>, op: Tok, r: Tok, s: seq<Tok>)
    ensures c + ([op] + ([r] + s)) == c + [op, r] + s
  {}

  lemma {:induction false} LexIds(ids: seq<int>, first: bool, s: string)
    requires s != "" && !IsDigit(s[0])
    ensures Lex(IdsText(ids, first) + s) == IntToks(ids, first) + Lex(s)
    ensures var t := IdsText(ids, first) + s; !first ==> !IsDigit(t[0])
  {
    hide Lex, Dec;
    if ids == [] {
      assert IdsText(ids, first) + s == s;
    } else {
      var more := IdsText(ids[1..], false);
      LexIds(ids[1..], false, s);
      LexInt(ids[0], more + s);
      Cat3(Dec(ids[0]), more, s);
      var t := Dec(ids[0]) + more;
      if first {
        assert "" + t == t;
        Assoc3([Int(ids[0])], IntToks(ids[1..], false), Lex(s));
        assert [] + ([Int(ids[0])] + IntToks(ids[1..], false)) == [Int(ids[0])] + IntToks(ids[1..], false);
      } else {
        LexSym(",", t + s);
        Cat3(",", t, s);
        Assoc4([Sym(",")], [Int(ids[0])], IntToks(ids[1..], false), Lex(s));
      }
    }
  }

  lemma CommonWords()
    ensures IsWord("SELECT") && IsWord("file_id") && IsWord("FROM") && IsWord("mserv_filetag") && IsWord("ft")
    ensures IsWord("WHERE") && IsWord("t.id") && IsWord("ft.file_id") && IsWord("AND") && IsWord("ft.tag_id")
  {}

  lemma InWords()
    ensures forall i :: 0 <= i < |IN_WORDS| ==> IN_WORDS[i] == "=" || IsWord(IN_WORDS[i])
  {
    CommonWords();
    assert IsWord("IN");
  }

  lemma MatchWords()
    ensures forall i :: 0 <= i < |MATCH_WORDS| ==> MATCH_WORDS[i] == "=" || IsWord(MATCH_WORDS[i])
  {
    CommonWords();
    JoinWords();
    hide IsWord;
  }

  lemma JoinWords()
    ensures IsWord("INNER") && IsWord("JOIN") && IsWord("mserv_tag") && IsWord("tag") && IsWord("ON")
    ensures IsWord("tag.id") && IsWord("tag.name")
  {}

  lemma LexExistsOpen(s: string)
    ensures Lex("EXISTS" + ("(" + (" " + s))) == [Word("EXISTS"), Sym("(")] + Lex(s)
  {
    hide Lex;
    LexSpace(s);
    LexSym("(", " " + s);
    assert IsWord("EXISTS");
    LexWord("EXISTS", "(" + (" " + s));
  }

  lemma LexInTags(s: string)
    ensures Lex(IN_TAGS + s)
      == (EXISTS_HEAD + WHERE) + (SAME_FILE + ([Word("ft.tag_id"), Word("IN"), Sym("(")] + Lex(s)))
  {
    hide Lex, Spaced, IsWord, Atoms;
    InWords();
    var words := Spaced(IN_WORDS);
    LexSym("(", s);
    LexSpaced(IN_WORDS, "(" + s);
    LexExistsOpen(words + ("(" + s));
    InTagsAssoc(words, s);
    assert [Word("EXISTS"), Sym("(")] + (Atoms(IN_WORDS) + ([Sym("(")] + Lex(s)))
      == (EXISTS_HEAD + WHERE) + (SAME_FILE + ([Word("ft.tag_id"), Word("IN"), Sym("(")] + Lex(s)));
  }

  lemma InTagsAssoc(words: string, s: string)
    ensures ("EXISTS" + ("(" + (" " + (words + "(")))) + s == "EXISTS" + ("(" + (" " + (words + ("(" + s))))
  {}

  lemma MatchesAssoc(words: string, s: string)
    ensures ("EXISTS" + ("(" + (" " + words))) + s == "EXISTS" + ("(" + (" " + (words + s)))
  {}

  lemma LexTagMatches(s: string)
    ensures Lex(TAG_MATCHES + s)
      == (EXISTS_HEAD + JOIN_TAGS + WHERE) + (SAME_FILE + ([Word("tag.name")] + Lex(s)))
  {
    hide Lex, Spaced, IsWord, Atoms;
    MatchWords();
    var words := Spaced(MATCH_WORDS);
    LexSpaced(MATCH_WORDS, s);
    LexExistsOpen(words + s);
    MatchesAssoc(words, s);
    assert [Word("EXISTS"), Sym("(")] + (Atoms(MATCH_WORDS) + Lex(s))
      == (EXISTS_HEAD + JOIN_TAGS + WHERE) + (SAME_FILE + ([Word("tag.name")] + Lex(s)));
  }

  lemma TagReText(t: Test, db: Db)
    requires AllowedTest(t) && t.field == Tag && t.op == Re
    ensures t.val.Str? && TestText(t, db) == TAG_MATCHES + ("~*" + (" " + (Quoted(t.val.s) + ")")))
  {
    hide Find, Allowed, Quoted, Spaced, TagsText, ColumnText, Pad4, Dec;
    var tt := TestType(t.field, t.op, TypeOf(t.val));
    AllowedMeans(tt);
    AllowedHasEntry(tt);
  }

  lemma TagReLex(t: Test, db: Db, s: string)
    requires AllowedTest(t) && t.field == Tag && t.op == Re && Apart(s)
    ensures Lex(TestText(t, db) + s) == TestToks(t, db) + Lex(s)
  {
    hide Lex, AllowedTest, TestText, Rhs, RhsTok, Spaced, Quoted;
    TagReText(t, db);
    var r := Quoted(t.val.s);
    assert RhsText(t) == r;
    LexSym(")", s);
    LexRhs(t, ")" + s);
    LexSpace(r + (")" + s));
    LexSym("~*", " " + (r + (")" + s)));
    LexTagMatches("~*" + (" " + (r + (")" + s))));
    MatchText(TAG_MATCHES, r, s);
    MatchToks(EXISTS_HEAD + JOIN_TAGS + WHERE, RhsTok(Rhs(t)), Lex(s));
  }

  lemma MatchText(m: string, r: string, s: string)
    ensures (m + ("~*" + (" " + (r + ")")))) + s == m + ("~*" + (" " + (r + (")" + s))))
  {}

  lemma MatchToks(m: seq<Tok>, r: Tok, s: seq<Tok>)
    ensures m + (SAME_FILE + ([Word("tag.name")] + ([Sym("~*")] + ([r] + ([Sym(")")] + s)))))
      == (m + (SAME_FILE + ([Word("tag.name"), Sym("~*"), r] + CLOSE))) + s
  {}

  /** The text of a test on tags, if it is not about a number. */
  lemma TagText(t: Test, db: Db)
    requires AllowedTest(t) && t.field == Tag && t.op != Re && !t.val.Num?
    ensures TestText(t, db) == TagsText(TagOperands(t), db)
  {
    hide Find, Allowed, Quoted, Spaced, TagsText, ColumnText, Pad4, Dec;
    var tt := TestType(t.field, t.op, TypeOf(t.val));
    AllowedMeans(tt);
    AllowedHasEntry(tt);
  }

  lemma TagLex(t: Test, db: Db, s: string)
    requires AllowedTest(t) && LooksUp(t) && HasText(t, db) && Apart(s)
    ensures Lex(TestText(t, db) + s) == TestToks(t, db) + Lex(s)
  {
    hide Lex, AllowedTest, TestText, TagIds, TestIds, NamesText, IdsText, Numbers, Names, IdsOf, IntToks, Spaced;
    var ids := TestIds(t, db);
    var list := Kept(IdsText(ids, true));
    TagText(t, db);
    LookedUp(t, db);
    IdsNotEmpty(ids);
    LexSym(")", s);
    LexSym(")", ")" + s);
    if Brimful(t, db) { LexCutIds(ids, ")" + (")" + s)); } else { LexIds(ids, true, ")" + (")" + s)); }
    LexInTags(list + (")" + (")" + s)));
    InText(IN_TAGS, list, s);
    InToks(EXISTS_HEAD + WHERE, ListToks(t, db), Lex(s));
  }

  lemma LookedUp(t: Test, db: Db)
    requires LooksUp(t) && |NamesText(TagOperands(t), true)| < SQL_LEN
    ensures TagIds(TagOperands(t), db) == Some(TestIds(t, db))
  {
    hide TagIds, NamesText;
    TagIdsAre(TagOperands(t), db);
  }

  lemma IdsNotEmpty(ids: seq<int>)
    requires ids != []
    ensures IdsText(ids, true) != ""
  {
    assert IdsText(ids, true)[0] == Dec(ids[0])[0];
  }

  lemma {:induction false} IdsTextSnoc(ids: seq<int>, first: bool, n: int)
    ensures IdsText(ids + [n], first) == IdsText(ids, first) + ((if ids == [] && first then "" else ",") + Dec(n))
  {
    hide Dec;
    var all := ids + [n];
    if ids == [] {
      assert all[1..] == [];
    } else {
      assert all[1..] == ids[1..] + [n];
      IdsTextSnoc(ids[1..], false, n);
    }
  }

  /** A number without its last character. */
  lemma DecCut(n: int)
    ensures var d := Dec(n); d[..|d| - 1] == if !OneDigit(n) then Dec(Shortened(n)) else if n < 0 then "-" else ""
  {
    var m := if n < 0 then -n else n;
    var d := Digits(m);
    if m >= 10 {
      assert d[..|d| - 1] == Digits(m / 10);
      if n < 0 { assert ("-" + d)[..|d|] == "-" + d[..|d| - 1]; }
    }
  }

  lemma LexLast(n: int, s: string)
    requires s != "" && s[0] == ')'
    ensures var d := Dec(n); Lex(d[..|d| - 1] + s) == LastToks(n) + Lex(s)
  {
    hide Lex, Dec;
    DecCut(n);
    if !OneDigit(n) {
      LexInt(Shortened(n), s);
    } else if n < 0 {
      LexMinus(s);
    } else {
      assert "" + s == s;
    }
  }

  lemma LexMinus(s: string)
    requires s != "" && s[0] == ')'
    ensures Lex("-" + s) == [Bad] + Lex(s)
  {
    Joined("-", s);
    var t := "-" + s;
    assert t[..2] == [t[0], t[1]];
    assert SymLen(t) == 0;
  }

  /** A list without its last character. */
  lemma LexCutIds(ids: seq<int>, s: string)
    requires ids != [] && s != "" && s[0] == ')'
    ensures var text := IdsText(ids, true); text != ""
    ensures var text := IdsText(ids, true);
      Lex(text[..|text| - 1] + s)
        == IntToks(Init(ids), true) + ((if |ids| == 1 then [] else [Sym(",")]) + LastToks(Last(ids))) + Lex(s)
  {
    hide Lex, Dec, IdsText, IntToks, LastToks;
    var init, n, d := Init(ids), Last(ids), Dec(Last(ids));
    var text, cut := IdsText(ids, true), d[..|d| - 1];
    assert ids == init + [n];
    IdsTextSnoc(init, true, n);
    LexLast(n, s);
    assert d == cut + d[|d| - 1..];
    if |ids| == 1 {
      NoIds();
      NoIntToks();
      assert text == d && text[..|text| - 1] == cut;
      assert [] + ([] + LastToks(n)) == LastToks(n);
    } else {
      assert text[..|text| - 1] == IdsText(init, true) + ("," + cut);
      LexSym(",", cut + s);
      LexIds(init, true, "," + (cut + s));
      Cat3(IdsText(init, true), "," + cut, s);
      Cat3(",", cut, s);
      Assoc4(IntToks(init, true), [Sym(",")], LastToks(n), Lex(s));
    }
  }

  lemma InText(m: string, list: string, s: string)
    ensures (m + (list + "))")) + s == m + (list + (")" + (")" + s)))
  {}

  lemma InToks(m: seq<Tok>, list: seq<Tok>, s: seq<Tok>)
    ensures var o := [Word("ft.tag_id"), Word("IN"), Sym("(")];
      m + (SAME_FILE + (o + (list + ([Sym(")")] + ([Sym(")")] + s)))))
      == (m + (SAME_FILE + (o + (list + (CLOSE + CLOSE))))) + s
  {}

  // ----- tests that do not compile -----

  function CutToks(names: seq<string>, first: bool): seq<Tok>
    requires names != []
  {
    (if first then [] else [Sym(",")])
    + (if |names| == 1 then [Bad] else [Lit(names[0])] + CutToks(names[1..], false))
  }

  lemma CutToksSplit(names: seq<string>)
    requires names != []
    ensures CutToks(names, false) == [Sym(",")] + CutToks(names, true)
    ensures |names| == 1 ==> CutToks(names, true) == [Bad]
    ensures |names| > 1 ==> CutToks(names, true) == [Lit(names[0])] + CutToks(names[1..], false)
  {}

  lemma {:induction false} CutToksRead(names: seq<string>)
    requires names != []
    ensures ReadNames(CutToks(names, true)) == None
  {
    hide CutToks;
    CutToksSplit(names);
    if |names| > 1 {
      CutToksRead(names[1..]);
      CutToksSplit(names[1..]);
      TwoAhead(Lit(names[0]), Sym(","), CutToks(names[1..], true));
    }
  }

  lemma NamesTextSplit(vs: seq<Value>, first: bool)
    requires vs != []
    ensures !vs[0].Str? ==> NamesText(vs, first) == NamesText(vs[1..], first) && Names(vs) == Names(vs[1..])
    ensures vs[0].Str? ==> Names(vs) == [vs[0].s] + Names(vs[1..])
    ensures vs[0].Str? ==> NamesText(vs, true) == Quoted(vs[0].s) + NamesText(vs[1..], false)
    ensures vs[0].Str? ==> NamesText(vs, false) == "," + NamesText(vs, true)
  {
    hide Quoted;
    assert vs[0].Str? ==> "" + NamesText(vs, true) == NamesText(vs, true);
    assert !vs[0].Str? ==> [] + Names(vs[1..]) == Names(vs[1..]);
  }

  /** Without its last character, a list of names ends in an unclosed literal. */
  lemma {:induction false} NamesCut(vs: seq<Value>, first: bool)
    requires Names(vs) != []
    ensures var t := NamesText(vs, first); t != "" && Lex(t[..|t| - 1]) == CutToks(Names(vs), first)
    decreases vs, if first then 1 else 2
  {
    hide Lex, Quoted, NamesText, Names, CutToks;
    assert vs != [] by { NoNamesThere(); }
    NamesTextSplit(vs, first);
    NamesTextLexes(vs, first);
    if !vs[0].Str? {
      NamesCut(vs[1..], first);
    } else if first {
      FirstNameCut(vs);
    } else {
      NamesCut(vs, true);
      var t := NamesText(vs, true);
      var cut := t[..|t| - 1];
      assert ("," + t)[..|t|] == "," + cut;
      LexSym(",", cut);
      CutToksSplit(Names(vs));
    }
  }

  lemma NoNamesThere()
    ensures Names([]) == []
  {}

  lemma {:induction false} FirstNameCut(vs: seq<Value>)
    requires vs != [] && vs[0].Str?
    ensures var t := NamesText(vs, true); t != "" && Lex(t[..|t| - 1]) == CutToks(Names(vs), true)
    decreases vs, 0
  {
    hide Lex, Escape, NamesText, Names, CutToks;
    NamesTextSplit(vs, true);
    var s, more, names := vs[0].s, NamesText(vs[1..], false), Names(vs[1..]);
    var t := NamesText(vs, true);
    NamesTextLexes(vs[1..], false);
    assert Names(vs)[1..] == names;
    CutToksSplit(Names(vs));
    if names == [] {
      assert t[..|t| - 1] == "'" + Escape(s);
      UnclosedLexes(s);
    } else {
      NamesCut(vs[1..], false);
      var tail := more[..|more| - 1];
      assert t[..|t| - 1] == Quoted(s) + tail;
      assert tail == "" || tail[0] == ',';
      LexLiteral(s, tail);
    }
  }

  lemma UnclosedLexes(s: string)
    ensures Lex("'" + Escape(s)) == [Bad]
  {
    EscapeUnclosed(s);
    Joined("'", Escape(s));
  }

  /** A lookup that fails, finds nothing or finds too much leaves no text. */
  lemma TagNoText(t: Test, db: Db)
    requires AllowedTest(t) && LooksUp(t) && !HasText(t, db)
    ensures TestText(t, db) == ""
  {
    hide Lex, AllowedTest, TestText, NamesText, Numbers, Names, IdsOf, IdsText, ReadNames, Spaced, TestIds;
    var vs := TagOperands(t);
    TagText(t, db);
    if |NamesText(vs, true)| < SQL_LEN {
      LookedUp(t, db);
      if TestIds(t, db) == [] {
        assert IdsText([], true) == "" by { NoIds(); }
      }
    } else if |NamesText(vs, true)| == SQL_LEN {
      NamesTextLexes(vs, true);
      NamesCut(vs, true);
      CutToksRead(Names(vs));
    }
  }

  lemma NoIds()
    ensures IdsText([], true) == ""
  {}

  lemma NullLex(t: Test, db: Db, s: string)
    requires AllowedTest(t) && ComparesNull(t) && Apart(s)
    ensures Lex(TestText(t, db) + s) == TestToks(t, db) + Lex(s)
  {
    hide Lex, Find, Allowed, Dec;
    var tt := TestType(t.field, t.op, TypeOf(t.val));
    AllowedMeans(tt);
    AllowedHasEntry(tt);
    var n := t.val.n;
    LexInt(n, s);
    LexSpace(Dec(n) + s);
    LexSym("=", " " + (Dec(n) + s));
    var tail := "=" + (" " + (Dec(n) + s));
    LexSpace(tail);
    LexSym(")", " " + tail);
    assert IsWord("null");
    LexWord("null", ")" + (" " + tail));
    LexSym("(", "null" + (")" + (" " + tail)));
    assert TestText(t, db) + s == "(" + ("null" + (")" + (" " + tail)));
  }

  lemma LeafLex(t: Test, db: Db, s: string)
    requires AllowedTest(t) && Apart(s)
    ensures Lex(TestText(t, db) + s) == LeafToks(t, db) + Lex(s)
  {
    hide Lex, AllowedTest, TestText, TestToks, HasText;
    if t.field != Tag { ScalarLex(t, db, s); }
    else if t.op == Re { TagReLex(t, db, s); }
    else if t.val.Num? { NullLex(t, db, s); }
    else if HasText(t, db) { TagLex(t, db, s); }
    else {
      TagNoText(t, db);
      assert "" + s == s;
    }
  }

  lemma LexOpen(s: string)
    ensures Lex("( " + s) == [Sym("(")] + Lex(s)
  {
    hide Lex;
    LexSpace(s);
    LexSym("(", " " + s);
    assert "( " + s == "(" + (" " + s);
  }

  lemma LexClose(s: string)
    ensures Lex(" )" + s) == [Sym(")")] + Lex(s)
  {
    hide Lex;
    LexSym(")", s);
    LexSpace(")" + s);
    assert " )" + s == " " + (")" + s);
  }

  lemma LexNot(s: string)
    ensures Lex("NOT ( " + s) == [Word("NOT"), Sym("(")] + Lex(s)
  {
    hide Lex;
    LexOpen(s);
    LexSpace("( " + s);
    assert IsWord("NOT");
    LexWord("NOT", " " + ("( " + s));
    assert "NOT ( " + s == "NOT" + (" " + ("( " + s));
  }

  lemma LexBetween(w: string, s: string)
    requires IsWord(w)
    ensures Lex(" )" + (w + ("( " + s))) == [Sym(")"), Word(w), Sym("(")] + Lex(s)
  {
    hide Lex, IsWord;
    LexOpen(s);
    LexWord(w, "( " + s);
    LexClose(w + ("( " + s));
    assert [Sym(")")] + ([Word(w)] + ([Sym("(")] + Lex(s))) == [Sym(")"), Word(w), Sym("(")] + Lex(s);
  }

  lemma LexConnective(or: bool, s: string)
    ensures Lex((if or then " )OR( " else " )AND( ") + s)
      == [Sym(")"), if or then Word("OR") else Word("AND"), Sym("(")] + Lex(s)
  {
    hide Lex, IsWord;
    ConnectivesAreWords();
    ConnectiveText(s);
    if or { LexBetween("OR", s); } else { LexBetween("AND", s); }
  }

  lemma ConnectiveText(s: string)
    ensures " )OR( " + s == " )" + ("OR" + ("( " + s)) && " )AND( " + s == " )" + ("AND" + ("( " + s))
  {
    assert " )OR( " == " )" + "OR" + "( " && " )AND( " == " )" + "AND" + "( ";
    Cat4(" )", "OR", "( ", s);
    Cat4(" )", "AND", "( ", s);
  }

  lemma ConnectivesAreWords()
    ensures IsWord("OR") && IsWord("AND")
  {}

  lemma {:induction false} ExprLex(e: Expr, db: Db, s: string)
    requires Accepted(e) && Apart(s)
    ensures Lex(ExprText(e, db) + s) == ExprToks(e, db) + Lex(s)
    decreases e, 1
  {
    hide Lex, TestText, LeafToks, IdsText, TestIds, AllowedTest;
    match e
    case Self(t) => LeafLex(t, db, s);
    case Not(x) =>
      var tx := ExprText(x, db);
      LexClose(s);
      ExprLex(x, db, " )" + s);
      LexNot(tx + (" )" + s));
      Cat4("NOT ( ", tx, " )", s);
      Cat3("NOT ( ", tx, " )");
      Assoc4([Word("NOT"), Sym("(")], ExprToks(x, db), CLOSE, Lex(s));
    case And(a, b) => PairLex(e, false, a, b, db, s);
    case Or(a, b) => PairLex(e, true, a, b, db, s);
  }

  lemma {:induction false} PairLex(e: Expr, or: bool, a: Expr, b: Expr, db: Db, s: string)
    requires e == (if or then Or(a, b) else And(a, b)) && Accepted(e) && Apart(s)
    ensures Lex(ExprText(e, db) + s) == ExprToks(e, db) + Lex(s)
    decreases e, 0
  {
    hide Lex, TestText, LeafToks, IdsText, TestIds, AllowedTest;
    var mid := if or then " )OR( " else " )AND( ";
    var ta, tb := ExprText(a, db), ExprText(b, db);
    var s1 := tb + (" )" + s);
    var s2 := ta + (mid + s1);
    LexClose(s);
    ExprLex(b, db, " )" + s);
    LexConnective(or, s1);
    ExprLex(a, db, mid + s1);
    LexOpen(s2);
    Cat6("( ", ta, mid, tb, " )", s);
    var word := if or then Word("OR") else Word("AND");
    Assoc6([Sym("(")], ExprToks(a, db), [Sym(")"), word, Sym("(")], ExprToks(b, db), CLOSE, Lex(s));
  }

  // ----- main result -----

  /** What a query with the compiled clause selects: the tracks for which the database is sure of the filter. */
  lemma CompiledSelects(e: Expr, row: TrackRow, db: Db)
    requires Accepted(e) && ExprText(e, db) != ""
    ensures Selects(ExprText(e, db), row, db) == if Compiles(e, db) then Some(ExprTruth(e, row, db) == Yes) else None
  {
    hide Lex, ReadOr, ExprText, ExprToks, ExprCond, Eval, ExprTruth, Accepted, Compiles;
    ExprLex(e, db, "");
    LexNothing();
    assert ExprText(e, db) + "" == ExprText(e, db);
    ExprRead(e, db, []);
    assert ExprToks(e, db) + [] == ExprToks(e, db);
    if Compiles(e, db) { ExprEval(e, row, db); }
  }

  lemma {:induction false} UntaggedId(fileTags: seq<FileTag>) returns (id: int)
    ensures forall ft :: ft in fileTags ==> ft.file < id
  {
    if fileTags == [] {
      id := 0;
    } else {
      id := UntaggedId(fileTags[1..]);
      if id <= fileTags[0].file { id := fileTags[0].file + 1; }
    }
  }

  /** Only a test that looks tags up can leave no text, and then it does not compile. */
  lemma EmptyText(e: Expr, db: Db)
    requires Accepted(e) && ExprText(e, db) == ""
    ensures e.Self? && LooksUp(e.test) && !HasText(e.test, db)
  {
    hide Lex, ReadOr, Spaced, AllowedTest, HasText;
    match e
    case Self(t) =>
      if t.field != Tag { ScalarText(t, db); }
      else if t.op == Re { TagReText(t, db); }
      else if t.val.Num? { NullText(t, db); }
      else if HasText(t, db) { TagNonempty(t, db); }
    case _ =>
  }

  lemma NullText(t: Test, db: Db)
    requires AllowedTest(t) && ComparesNull(t)
    ensures TestText(t, db) != ""
  {
    hide Find, Allowed, Dec;
    var tt := TestType(t.field, t.op, TypeOf(t.val));
    AllowedMeans(tt);
    AllowedHasEntry(tt);
  }

  lemma TagNonempty(t: Test, db: Db)
    requires AllowedTest(t) && LooksUp(t) && HasText(t, db)
    ensures TestText(t, db) != ""
  {
    hide TagIds, NamesText, TestIds, AllowedTest, TestText, IdsText, Spaced;
    TagText(t, db);
    LookedUp(t, db);
    IdsNotEmpty(TestIds(t, db));
  }

  /** The database is sure of the filter for exactly the tracks that satisfy it. */
  ghost predicate Faithful(e: Expr, db: Db)
    requires Compiles(e, db)
  { forall row :: ExprTruth(e, row, db) == Yes <==> Holds(e, row, db) }

  /**
   For every filter the parser accepts: the clause selects exactly the tracks the filter holds for if and only
   if every test compiles and the database is sure of the filter for these tracks.
   */
  lemma CompiledMeaning(e: Expr, db: Db)
    requires Accepted(e)
    ensures (forall row :: Selects(ExprText(e, db), row, db) == Some(Holds(e, row, db)))
      <==> Compiles(e, db) && Faithful(e, db)
  {
    hide ExprText, Accepted, Compiles, Holds, ReadCond, Eval, ExprTruth;
    if ExprText(e, db) == "" {
      EmptyText(e, db);
      assert !Compiles(e, db) by { NoTextNoMeaning(e, db); }
      var id := UntaggedId(db.fileTags);
      var row := TrackRow(id, 0, 0, 0, "", "", 0, "", 0, 0);
      NotTagged(e, row, db);
      assert Selects(ExprText(e, db), row, db) == Some(true);
    } else {
      forall row
        ensures Selects(ExprText(e, db), row, db) ==
          if Compiles(e, db) then Some(ExprTruth(e, row, db) == Yes) else None
      {
        CompiledSelects(e, row, db);
      }
      var row := TrackRow(0, 0, 0, 0, "", "", 0, "", 0, 0);
      assert Selects(ExprText(e, db), row, db) == if Compiles(e, db) then Some(ExprTruth(e, row, db) == Yes) else None;
    }
  }

  lemma NoTextNoMeaning(e: Expr, db: Db)
    requires e.Self? && LooksUp(e.test) && !HasText(e.test, db)
    ensures !Compiles(e, db)
  {}

  lemma NotTagged(e: Expr, row: TrackRow, db: Db)
    requires e.Self? && e.test.field == Tag && e.test.op != Re
    requires forall ft :: ft in db.fileTags ==> ft.file < row.id
    ensures !Holds(e, row, db)
  {
    assert forall v :: !Tagged(v, row, db);
  }

  // ----- when the database is sure -----

  /** No test on tags is about a number, leaves no text, or fills its list to the brim. */
  predicate Proper(e: Expr, db: Db)
  {
    match e
    case Self(t) => !ComparesNull(t) && (LooksUp(t) ==> HasText(t, db) && !Brimful(t, db))
    case Not(x) => Proper(x, db)
    case And(a, b) => Proper(a, db) && Proper(b, db)
    case Or(a, b) => Proper(a, db) && Proper(b, db)
  }

  lemma {:induction false} ProperTruth(e: Expr, row: TrackRow, db: Db)
    requires Accepted(e) && Proper(e, db)
    ensures Compiles(e, db) && ExprTruth(e, row, db) == Known(Holds(e, row, db))
  {
    hide HasText, Brimful, TestHolds, AllowedTest, TestIds, Carries;
    match e
    case Self(t) => if LooksUp(t) { TagTruth(t, row, db); }
    case Not(x) => ProperTruth(x, row, db);
    case And(a, b) => ProperTruth(a, row, db); ProperTruth(b, row, db);
    case Or(a, b) => ProperTruth(a, row, db); ProperTruth(b, row, db);
  }

  /** For proper filters the clause selects exactly the tracks the filter holds for, in every database. */
  lemma ProperSelects(e: Expr, row: TrackRow, db: Db)
    requires Accepted(e) && Proper(e, db)
    ensures Selects(ExprText(e, db), row, db) == Some(Holds(e, row, db))
  {
    hide ExprText, Accepted, Compiles, Proper, Holds, ExprTruth, Selects;
    forall row { ProperTruth(e, row, db); }
    ProperTruth(e, row, db);
    CompiledMeaning(e, db);
  }

  /** No test is about a tag's number, and no list fills its buffer to the last character. */
  predicate Ordinary(e: Expr, db: Db)
  {
    match e
    case Self(t) => !ComparesNull(t) && (LooksUp(t) ==> !Brimful(t, db))
    case Not(x) => Ordinary(x, db)
    case And(a, b) => Ordinary(a, db) && Ordinary(b, db)
    case Or(a, b) => Ordinary(a, db) && Ordinary(b, db)
  }

  lemma {:induction false} OrdinaryIsProper(e: Expr, db: Db)
    requires Ordinary(e, db) && Compiles(e, db)
    ensures Proper(e, db)
  {
    hide HasText, Brimful;
    match e
    case Self(t) =>
    case Not(x) => OrdinaryIsProper(x, db);
    case And(a, b) => OrdinaryIsProper(a, db); OrdinaryIsProper(b, db);
    case Or(a, b) => OrdinaryIsProper(a, db); OrdinaryIsProper(b, db);
  }

  /** Ordinary filters are compiled right if and only if all of their tests compile. */
  lemma OrdinaryMeaning(e: Expr, db: Db)
    requires Accepted(e) && Ordinary(e, db)
    ensures (forall row :: Selects(ExprText(e, db), row, db) == Some(Holds(e, row, db))) <==> Compiles(e, db)
  {
    hide ExprText, Accepted, Compiles, Ordinary, Proper, Holds, ExprTruth, Selects;
    CompiledMeaning(e, db);
    if Compiles(e, db) {
      OrdinaryIsProper(e, db);
      forall row { ProperTruth(e, row, db); }
    }
  }

  /** The same files carry one of the ids of a list before and after it was cut off. */
  ghost predicate SameFiles(t: Test, db: Db)
    requires HasText(t, db)
  {
    && (forall ft :: ft in db.fileTags && ft.tag in TestIds(t, db) ==> Carries(ft.file, ListedIds(t, db), db))
    && (forall ft :: ft in db.fileTags && ft.tag in ListedIds(t, db) ==> Carries(ft.file, TestIds(t, db), db))
  }

  /** Every list is as good as if it were whole, and tags that are tested by number are carried by no file... */
  ghost predicate Quiet(e: Expr, db: Db)
  {
    match e
    case Self(t) =>
      if ComparesNull(t) then forall ft :: ft in db.fileTags ==> ft.tag != t.val.n
      else LooksUp(t) ==> CompilesTest(t, db) && SameFiles(t, db)
    case Not(x) => Quiet(x, db) && Numberless(x)
    case And(a, b) => Quiet(a, db) && Quiet(b, db)
    case Or(a, b) => Quiet(a, db) && Quiet(b, db)
  }

  /** ... and by no negated filter. */
  predicate Numberless(e: Expr)
  {
    match e
    case Self(t) => !ComparesNull(t)
    case Not(x) => Numberless(x)
    case And(a, b) => Numberless(a) && Numberless(b)
    case Or(a, b) => Numberless(a) && Numberless(b)
  }

  lemma {:induction false} QuietTruth(e: Expr, row: TrackRow, db: Db)
    requires Accepted(e) && Quiet(e, db)
    ensures Compiles(e, db) && (ExprTruth(e, row, db) == Yes <==> Holds(e, row, db))
    ensures Numberless(e) ==> ExprTruth(e, row, db) == Known(Holds(e, row, db))
  {
    hide AllowedTest, HasText, Brimful, TestIds, ListedIds;
    match e
    case Self(t) =>
      if LooksUp(t) {
        TagTruth(t, row, db);
        CarriesSame(t, row.id, db);
      }
    case Not(x) => QuietTruth(x, row, db);
    case And(a, b) => QuietTruth(a, row, db); QuietTruth(b, row, db);
    case Or(a, b) => QuietTruth(a, row, db); QuietTruth(b, row, db);
  }

  lemma CarriesSame(t: Test, file: int, db: Db)
    requires HasText(t, db) && SameFiles(t, db)
    ensures Carries(file, TestIds(t, db), db) <==> Carries(file, ListedIds(t, db), db)
  {
    hide HasText, TestIds, ListedIds;
  }

  /** Quiet filters are compiled right, whatever else they test. */
  lemma QuietSelects(e: Expr, row: TrackRow, db: Db)
    requires Accepted(e) && Quiet(e, db)
    ensures Selects(ExprText(e, db), row, db) == Some(Holds(e, row, db))
  {
    hide ExprText, Accepted, Compiles, Quiet, Holds, ExprTruth, Selects;
    forall row { QuietTruth(e, row, db); }
    QuietTruth(e, row, db);
    CompiledMeaning(e, db);
  }

  /** A test for a tag's number is right if and only if no file carries that tag, and its negation never is. */
  lemma TagNumber(n: int, db: Db)
    ensures var e := Self(Test(Tag, Eq, Num(n)));
      && Compiles(e, db) && Compiles(Not(e), db)
      && (Faithful(e, db) <==> forall ft :: ft in db.fileTags ==> ft.tag != n)
      && !Faithful(Not(e), db)
  {
    var e := Self(Test(Tag, Eq, Num(n)));
    forall row ensures Holds(e, row, db) <==> FileTag(row.id, n) in db.fileTags {}
    if ft :| ft in db.fileTags && ft.tag == n {
      var row := TrackRow(ft.file, 0, 0, 0, "", "", 0, "", 0, 0);
      assert ft == FileTag(row.id, n);
      assert Holds(e, row, db) && ExprTruth(e, row, db) == Unknown;
    }
    var id := UntaggedId(db.fileTags);
    var row := TrackRow(id, 0, 0, 0, "", "", 0, "", 0, 0);
    assert FileTag(row.id, n) !in db.fileTags;
    assert !Holds(e, row, db) && Holds(Not(e), row, db) && ExprTruth(Not(e), row, db) == Unknown;
  }

  /** A test whose list is cut off is right if and only if the same files carry one of the ids before and after. */
  lemma CutList(t: Test, db: Db)
    requires AllowedTest(t) && LooksUp(t) && CompilesTest(t, db)
    ensures Faithful(Self(t), db) <==> SameFiles(t, db)
  {
    hide HasText, Brimful, TestIds, ListedIds, TestHolds, AllowedTest;
    var ids, cut := TestIds(t, db), ListedIds(t, db);
    forall row ensures Holds(Self(t), row, db) <==> Carries(row.id, ids, db) { TagTruth(t, row, db); }
    forall row ensures ExprTruth(Self(t), row, db) == Yes <==> Carries(row.id, cut, db) {}
    if Faithful(Self(t), db) {
      forall ft | ft in db.fileTags ensures Carries(ft.file, ids, db) <==> Carries(ft.file, cut, db) {
        var row := TrackRow(ft.file, 0, 0, 0, "", "", 0, "", 0, 0);
        assert Holds(Self(t), row, db) <==> ExprTruth(Self(t), row, db) == Yes;
      }
    }
  }

  // ----- what goes wrong otherwise -----

  /** A filter for a tag nobody has created selects everything. */
  lemma UnknownTagSelectsAll(name: string, row: TrackRow, matches: (string, string) -> bool)
    requires IsLowerCase(name)
    ensures var e, db := Self(Test(Tag, Eq, Str(name))), Db([], [], matches);
      Accepted(e) && !Holds(e, row, db) && Selects(ExprText(e, db), row, db) == Some(true)
  {
    hide Allowed, NamesText, IdsText;
    var t, db := Test(Tag, Eq, Str(name)), Db([], [], matches);
    AllowedMeans(TestType(Tag, Eq, StringType));
    assert TestIds(t, db) == [] by {
      var v := Str(name);
      assert Numbers([v]) == Numbers([v][1..]) == [];
    }
    TagNoText(t, db);
  }

  function Ones(k: nat): (vs: seq<Value>)
    ensures |vs| == k && forall i :: 0 <= i < k ==> vs[i] == Num(1)
  { seq(k, _ => Num(1)) }

  function OneIds(k: nat): (ids: seq<int>)
    ensures |ids| == k && forall i :: 0 <= i < k ==> ids[i] == 1
  { seq(k, _ => 1) }

  lemma {:induction false} OnesText(k: nat, n: int)
    ensures Numbers(Ones(k) + [Num(n)]) == OneIds(k) + [n]
    ensures Names(Ones(k) + [Num(n)]) == [] && NamesText(Ones(k) + [Num(n)], true) == ""
    ensures |IdsText(OneIds(k) + [n], true)| == 2 * k + |Dec(n)|
  {
    hide Dec;
    var vs, ids := Ones(k) + [Num(n)], OneIds(k) + [n];
    if k == 0 {
      assert vs[1..] == [] && ids[1..] == [];
      assert Numbers(vs) == [n] + [];
    } else {
      assert vs[1..] == Ones(k - 1) + [Num(n)] && ids[1..] == OneIds(k - 1) + [n];
      OnesText(k - 1, n);
      MoreText(ids[1..]);
      assert Numbers(vs) == [1] + Numbers(vs[1..]) == ids;
      assert |Dec(1)| == 1 by { DecOfOne(); }
    }
  }

  lemma DecOfOne()
    ensures |Dec(1)| == 1
  {}

  lemma MoreText(ids: seq<int>)
    requires ids != []
    ensures |IdsText(ids, false)| == |IdsText(ids, true)| + 1
  {}

  /** The id 1 a number of times, and 57. */
  function LongList(k: nat): Test { Test(Tag, In, List(Ones(k) + [Num(57)])) }

  /** A list of that length is read as if it ended in 5: a file that carries only tag 5 is selected, wrongly. */
  lemma LongListSelectsWrong(k: nat, row: TrackRow, matches: (string, string) -> bool)
    requires 2 * k + 2 == SQL_LEN
    ensures var e, db := Self(LongList(k)), Db([], [FileTag(row.id, 5)], matches);
      Accepted(e) && !Holds(e, row, db) && Selects(ExprText(e, db), row, db) == Some(true)
  {
    hide Allowed, NamesText, IdsText, Numbers, Names, Ones, OneIds, Selects;
    var t, db, vs := LongList(k), Db([], [FileTag(row.id, 5)], matches), Ones(k) + [Num(57)];
    AllowedMeans(TestType(Tag, In, ListType));
    OnesText(k, 57);
    assert |Dec(57)| == 2 by { assert |Digits(5)| == 1; }
    var ids := TestIds(t, db);
    assert TagOperands(t) == vs;
    assert ids == OneIds(k) + [57] + [];
    assert ids == OneIds(k) + [57];
    assert Last(ids) == 57 && Shortened(57) == 5;
    var cut := ListedIds(t, db);
    assert cut[k] == 5;
    assert FileTag(row.id, 5) in db.fileTags && Carries(row.id, cut, db);
    assert !Carries(row.id, ids, db);
    assert AcceptedValue(t.val);
    TagTruth(t, row, db);
    EmptyOnlyWithoutText(Self(t), db);
    CompiledSelects(Self(t), row, db);
  }

  lemma EmptyOnlyWithoutText(e: Expr, db: Db)
    requires Accepted(e) && e.Self? && HasText(e.test, db)
    ensures ExprText(e, db) != ""
  {
    hide ExprText, HasText, Accepted;
    if ExprText(e, db) == "" { EmptyText(e, db); }
  }
}
