/** A small SQL: the boolean part of WHERE clauses over one track row and the tag tables. */
module Sql {
  import opened Text
  import opened SqlLex

  // ----- the tables -----

  datatype TrackRow = TrackRow(id: int, dur: int, lplay: int, year: int, title: string,
                               artist: string, artistId: int, album: string, albumId: int, pos: int)

  datatype TagRow = TagRow(id: int, name: string)

  datatype FileTag = FileTag(file: int, tag: int)

  /** The tag tables and what a regular expression matches without regard to case. */
  datatype Db = Db(tags: seq<TagRow>, fileTags: seq<FileTag>, matches: (string, string) -> bool)

  // ----- conditions -----

  datatype Column = Column(name: string, lower: bool)

  datatype Operand = OInt(n: int) | OText(s: string) | OColumn(name: string)

  datatype Cond =
    | CNot(x: Cond)
    | CAnd(x: Cond, y: Cond)
    | COr(x: Cond, y: Cond)
    | CCompare(col: Column, op: string, rhs: Operand)
    | CNull(op: string, rhs: Operand)
    | CIn(col: Column, ids: seq<int>)
    | CExists(joined: bool, where: Cond)

  // ----- reading tokens: OR binds weaker than AND, AND weaker than NOT -----

  const EXISTS_HEAD: seq<Tok> :=
    [Word("EXISTS"), Sym("("), Word("SELECT"), Word("file_id"), Word("FROM"), Word("mserv_filetag"), Word("ft")]

  const JOIN_TAGS: seq<Tok> :=
    [Word("INNER"), Word("JOIN"), Word("mserv_tag"), Word("tag"), Word("ON"),
     Word("ft.tag_id"), Sym("="), Word("tag.id")]

  const WHERE: seq<Tok> := [Word("WHERE")]

  function ReadOr(ts: seq<Tok>): (r: Option<(Cond, seq<Tok>)>)
    ensures r.Some? ==> |r.value.1| < |ts|
    decreases |ts|, 3
  {
    match ReadAnd(ts)
    case None => None
    case Some((x, rest)) =>
      if rest == [] || rest[0] != Word("OR") then Some((x, rest))
      else match ReadOr(rest[1..])
        case None => None
        case Some((y, rest')) => Some((COr(x, y), rest'))
  }

  function ReadAnd(ts: seq<Tok>): (r: Option<(Cond, seq<Tok>)>)
    ensures r.Some? ==> |r.value.1| < |ts|
    decreases |ts|, 2
  {
    match ReadNot(ts)
    case None => None
    case Some((x, rest)) =>
      if rest == [] || rest[0] != Word("AND") then Some((x, rest))
      else match ReadAnd(rest[1..])
        case None => None
        case Some((y, rest')) => Some((CAnd(x, y), rest'))
  }

  function ReadNot(ts: seq<Tok>): (r: Option<(Cond, seq<Tok>)>)
    ensures r.Some? ==> |r.value.1| < |ts|
    decreases |ts|, 1
  {
    if ts == [] || ts[0] != Word("NOT") then ReadPrimary(ts)
    else match ReadNot(ts[1..])
      case None => None
      case Some((x, rest)) => Some((CNot(x), rest))
  }

  function ReadPrimary(ts: seq<Tok>): (r: Option<(Cond, seq<Tok>)>)
    ensures r.Some? ==> |r.value.1| < |ts|
    decreases |ts|, 0
  {
    if ts == [] then None
    else if [Sym("("), Word("null"), Sym(")")] <= ts then ReadNull(ts)
    else if ts[0] == Sym("(") then
      match ReadOr(ts[1..])
      case None => None
      case Some((x, rest)) => if rest == [] || rest[0] != Sym(")") then None else Some((x, rest[1..]))
    else if EXISTS_HEAD + WHERE <= ts then ReadExists(ts, false, |EXISTS_HEAD + WHERE|)
    else if EXISTS_HEAD + JOIN_TAGS + WHERE <= ts then ReadExists(ts, true, |EXISTS_HEAD + JOIN_TAGS + WHERE|)
    else ReadTest(ts)
  }

  function ReadExists(ts: seq<Tok>, joined: bool, skip: nat): (r: Option<(Cond, seq<Tok>)>)
    requires 0 < skip <= |ts|
    ensures r.Some? ==> |r.value.1| < |ts|
    decreases |ts| - skip, 4
  {
    match ReadOr(ts[skip..])
    case None => None
    case Some((x, rest)) =>
      if rest == [] || rest[0] != Sym(")") then None else Some((CExists(joined, x), rest[1..]))
  }

  const COMPARISONS: set<string> := {"=", "<", "<=", ">", ">=", "~*"}

  function ReadOperand(t: Tok): Option<Operand>
  {
    match t
    case Int(n) => Some(OInt(n))
    case Lit(s) => Some(OText(s))
    case Word(w) => Some(OColumn(w))
    case _ => None
  }

  /** An operator and its right operand. */
  function ReadRhs(ts: seq<Tok>): (r: Option<(string, Operand)>)
    ensures r.Some? ==> |ts| >= 2
  {
    if |ts| < 2 || !ts[0].Sym? || ts[0].sym !in COMPARISONS || ReadOperand(ts[1]) == None then None
    else Some((ts[0].sym, ReadOperand(ts[1]).value))
  }

  /** A comparison of (null). */
  function ReadNull(ts: seq<Tok>): (r: Option<(Cond, seq<Tok>)>)
    requires |ts| >= 3
    ensures r.Some? ==> |r.value.1| < |ts|
  {
    match ReadRhs(ts[3..])
    case None => None
    case Some((op, rhs)) => Some((CNull(op, rhs), ts[5..]))
  }

  /** A comparison or a list membership. */
  function ReadTest(ts: seq<Tok>): (r: Option<(Cond, seq<Tok>)>)
    ensures r.Some? ==> |r.value.1| < |ts|
  {
    if ts == [] || !ts[0].Word? then None
    else
      var lower := |ts| > 3 && ts[0] == Word("lower") && ts[1] == Sym("(") && ts[2].Word? && ts[3] == Sym(")");
      var col := if lower then Column(ts[2].w, true) else Column(ts[0].w, false);
      var rest := ts[if lower then 4 else 1..];
      if |rest| < 2 then None
      else if rest[0] == Word("IN") && rest[1] == Sym("(") then
        match ReadInts(rest[2..])
        case None => None
        case Some((ids, rest')) => Some((CIn(col, ids), rest'))
      else
        match ReadRhs(rest)
        case None => None
        case Some((op, rhs)) => Some((CCompare(col, op, rhs), rest[2..]))
  }

  /** Numbers separated by commas, up to and including the closing parenthesis. */
  function ReadInts(ts: seq<Tok>): (r: Option<(seq<int>, seq<Tok>)>)
    ensures r.Some? ==> |r.value.1| < |ts|
  {
    if |ts| < 2 || !ts[0].Int? then None
    else if ts[1] == Sym(")") then Some(([ts[0].n], ts[2..]))
    else if ts[1] != Sym(",") then None
    else match ReadInts(ts[2..])
      case None => None
      case Some((ids, rest)) => Some(([ts[0].n] + ids, rest))
  }

  function ReadCond(text: string): Option<Cond>
  {
    match ReadOr(Lex(text))
    case Some((x, rest)) => if rest == [] then Some(x) else None
    case None => None
  }

  // ----- evaluation -----

  datatype Val = VInt(n: int) | VText(s: string)

  /** The row of the outer query, and inside EXISTS those of the inner one. */
  datatype Env = Env(row: TrackRow, ft: Option<FileTag>, tag: Option<TagRow>)

  function ColumnValue(name: string, env: Env): Option<Val>
  {
    var t := env.row;
    if name == "t.id" then Some(VInt(t.id))
    else if name == "dur" then Some(VInt(t.dur))
    else if name == "lplay" then Some(VInt(t.lplay))
    else if name == "album_publish_year" then Some(VInt(t.year))
    else if name == "title" then Some(VText(t.title))
    else if name == "artist_name" then Some(VText(t.artist))
    else if name == "artist_id" then Some(VInt(t.artistId))
    else if name == "album_name" then Some(VText(t.album))
    else if name == "album_id" then Some(VInt(t.albumId))
    else if name == "album_pos" then Some(VInt(t.pos))
    else if name == "ft.file_id" && env.ft.Some? then Some(VInt(env.ft.value.file))
    else if name == "ft.tag_id" && env.ft.Some? then Some(VInt(env.ft.value.tag))
    else if name == "tag.id" && env.tag.Some? then Some(VInt(env.tag.value.id))
    else if name == "tag.name" && env.tag.Some? then Some(VText(env.tag.value.name))
    else None
  }

  /** The value of an untyped literal that is compared with a number. */
  function ReadNumber(s: string): Option<int>
  {
    if s != "" && AllDigits(s) then Some(DigitsValue(s))
    else if |s| > 1 && s[0] == '-' && AllDigits(s[1..]) then Some(0 - DigitsValue(s[1..]) as int)
    else None
  }

  function CompareInts(op: string, a: int, b: int): Option<bool>
  {
    if op == "=" then Some(a == b)
    else if op == "<" then Some(a < b)
    else if op == "<=" then Some(a <= b)
    else if op == ">" then Some(a > b)
    else if op == ">=" then Some(a >= b)
    else None
  }

  function Compare(op: string, a: Val, b: Val, db: Db): Option<bool>
  {
    match (a, b)
    case (VInt(x), VInt(y)) => CompareInts(op, x, y)
    case (VInt(x), VText(s)) =>
      var y := ReadNumber(s);
      if y.Some? then CompareInts(op, x, y.value) else None
    case (VText(x), VText(y)) =>
      if op == "=" then Some(x == y) else if op == "~*" then Some(db.matches(y, x)) else None
    case _ => None
  }

  function EvalColumn(col: Column, env: Env): Option<Val>
  {
    match ColumnValue(col.name, env)
    case Some(VText(s)) => Some(VText(if col.lower then LowerAll(s) else s))
    case v => if col.lower then None else v
  }

  function EvalOperand(o: Operand, env: Env): Option<Val>
  {
    match o
    case OInt(n) => Some(VInt(n))
    case OText(s) => Some(VText(s))
    case OColumn(c) => ColumnValue(c, env)
  }

  /** The truth values of SQL. */
  datatype Truth = Yes | No | Unknown

  function Known(b: bool): Truth { if b then Yes else No }

  function Negated(a: Truth): Truth { match a { case Yes => No case No => Yes case Unknown => Unknown } }

  function Both(a: Truth, b: Truth): Truth
  { if a == No || b == No then No else if a == Yes && b == Yes then Yes else Unknown }

  function Either(a: Truth, b: Truth): Truth { Negated(Both(Negated(a), Negated(b))) }

  ghost function Eval(x: Cond, env: Env, db: Db): Option<Truth>
  {
    match x
    case CNot(y) =>
      var b := Eval(y, env, db);
      if b.Some? then Some(Negated(b.value)) else None
    case CAnd(y, z) =>
      var (a, b) := (Eval(y, env, db), Eval(z, env, db));
      if a.Some? && b.Some? then Some(Both(a.value, b.value)) else None
    case COr(y, z) =>
      var (a, b) := (Eval(y, env, db), Eval(z, env, db));
      if a.Some? && b.Some? then Some(Either(a.value, b.value)) else None
    case CCompare(col, op, rhs) =>
      var (a, b) := (EvalColumn(col, env), EvalOperand(rhs, env));
      var r := if a.Some? && b.Some? then Compare(op, a.value, b.value, db) else None;
      if r.Some? then Some(Known(r.value)) else None
    case CNull(_, rhs) => if EvalOperand(rhs, env).Some? then Some(Unknown) else None
    case CIn(col, ids) =>
      var a := EvalColumn(col, env);
      if a.Some? && a.value.VInt? then Some(Known(a.value.n in ids)) else None
    case CExists(joined, cond) =>
      var found :=
        if joined then
          exists ft, tag ::
            && ft in db.fileTags && tag in db.tags && ft.tag == tag.id
            && Eval(cond, env.(ft := Some(ft), tag := Some(tag)), db) == Some(Yes)
        else
          exists ft :: ft in db.fileTags && Eval(cond, env.(ft := Some(ft)), db) == Some(Yes);
      Some(Known(found))
  }

  /** Whether a query selects a row; None is an error. No text means that there is no WHERE clause. */
  ghost function Selects(text: string, row: TrackRow, db: Db): Option<bool>
  {
    if text == "" then Some(true)
    else match ReadCond(text)
      case None => None
      case Some(x) =>
        var r := Eval(x, Env(row, None, None), db);
        if r.Some? then Some(r.value == Yes) else None
  }
}
