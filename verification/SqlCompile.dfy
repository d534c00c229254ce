/** Compiling filters to SQL: the table of formats, the lookup of tag names, and the text of the clause. */
module SqlCompile {
  import opened Text
  import opened Filter
  import opened SqlLex
  import opened Sql

  /** Size of the buffers that lists of names and of ids are built in. */
  const SQL_LEN: nat := 1024

  function SqlOp(op: ValOp): string
  {
    match op
    case NoOp => ""
    case Eq => "="
    case Lt => "<"
    case Le => "<="
    case Gt => ">"
    case Ge => ">="
    case In => "IN"
    case Re => "~*"
  }

  datatype Format = NumFormat | YearFormat | TagFormat | TagReFormat | TagListFormat | StringFormat

  /** How a kind of test is written, and the column it is about, if there is one. */
  datatype Entry = Entry(typ: TestType, format: Format, col: Option<Column>)

  function Plain(name: string): Option<Column> { Some(Column(name, false)) }

  function Lowered(name: string): Option<Column> { Some(Column(name, true)) }

  function CompareEntries(f: Field, format: Format, name: string): seq<Entry>
  {
    [Entry(TestType(f, Eq, NumType), format, Plain(name)),
     Entry(TestType(f, Lt, NumType), format, Plain(name)),
     Entry(TestType(f, Le, NumType), format, Plain(name)),
     Entry(TestType(f, Gt, NumType), format, Plain(name)),
     Entry(TestType(f, Ge, NumType), format, Plain(name))]
  }

  function NamedEntries(f: Field, name: string, id: string): seq<Entry>
  {
    [Entry(TestType(f, Eq, StringType), StringFormat, Lowered(name)),
     Entry(TestType(f, Eq, NumType), NumFormat, Plain(id)),
     Entry(TestType(f, Re, StringType), StringFormat, Plain(name))]
  }

  const TAG_ENTRIES: seq<Entry> :=
    [Entry(TestType(Tag, Eq, NumType), NumFormat, None),
     Entry(TestType(Tag, Eq, StringType), TagFormat, None),
     Entry(TestType(Tag, Re, StringType), TagReFormat, None),
     Entry(TestType(Tag, In, ListType), TagListFormat, None)]

  const TITLE_ENTRIES: seq<Entry> :=
    [Entry(TestType(Title, Eq, StringType), StringFormat, Lowered("title")),
     Entry(TestType(Title, Re, StringType), StringFormat, Plain("title"))]

  const ENTRIES: seq<Entry> :=
    CompareEntries(Duration, NumFormat, "dur")
    + (CompareEntries(LastPlay, NumFormat, "lplay")
    + (CompareEntries(Year, YearFormat, "album_publish_year")
    + (TAG_ENTRIES
    + (TITLE_ENTRIES
    + (NamedEntries(Artist, "artist_name", "artist_id")
    + (NamedEntries(Album, "album_name", "album_id")
    + CompareEntries(Pos, NumFormat, "album_pos")))))))

  /** The first entry for a kind of test. */
  function Find(table: seq<Entry>, t: TestType): Option<Entry>
  {
    if table == [] then None
    else if table[0].typ == t then Some(table[0])
    else Find(table[1..], t)
  }

  // ----- tags: names are looked up first, then the clause lists ids -----

  function Numbers(vs: seq<Value>): seq<int>
  { if vs == [] then [] else (if vs[0].Num? then [vs[0].n] else []) + Numbers(vs[1..]) }

  function Names(vs: seq<Value>): seq<string>
  { if vs == [] then [] else (if vs[0].Str? then [vs[0].s] else []) + Names(vs[1..]) }

  function Quoted(s: string): string { "'" + Escape(s) + "'" }

  /** The names among vs, quoted and separated by commas; first tells that none has been written yet. */
  function NamesText(vs: seq<Value>, first: bool): string
  {
    if vs == [] then ""
    else if vs[0].Str? then (if first then "" else ",") + (Quoted(vs[0].s) + NamesText(vs[1..], false))
    else NamesText(vs[1..], first)
  }

  /** What a buffer of SQL_LEN characters keeps of a text. */
  function Kept(text: string): string { if |text| < SQL_LEN then text else text[..SQL_LEN - 1] }

  function IdsOf(tags: seq<TagRow>, names: seq<string>): seq<int>
  { if tags == [] then [] else (if tags[0].name in names then [tags[0].id] else []) + IdsOf(tags[1..], names) }

  /** Literals separated by commas. */
  function ReadNames(ts: seq<Tok>): Option<seq<string>>
  {
    if ts == [] || !ts[0].Lit? then None
    else if |ts| == 1 then Some([ts[0].s])
    else if ts[1] != Sym(",") then None
    else match ReadNames(ts[2..])
      case None => None
      case Some(names) => Some([ts[0].s] + names)
  }

  /** SELECT id FROM mserv_tag WHERE name IN (...); None is an error. */
  function QueryIds(list: string, db: Db): Option<seq<int>>
  {
    match ReadNames(Lex(list))
    case None => None
    case Some(names) => Some(IdsOf(db.tags, names))
  }

  /** Numbers stand for themselves, names for the ids found in the database. */
  function TagIds(vs: seq<Value>, db: Db): Option<seq<int>>
  {
    var text := NamesText(vs, true);
    if |text| > SQL_LEN then None
    else if text == "" then Some(Numbers(vs))
    else match QueryIds(Kept(text), db)
      case None => None
      case Some(ids) => Some(Numbers(vs) + ids)
  }

  function IdsText(ids: seq<int>, first: bool): string
  { if ids == [] then "" else (if first then "" else ",") + (Dec(ids[0]) + IdsText(ids[1..], false)) }

  const IN_WORDS: seq<string> :=
    ["SELECT", "file_id", "FROM", "mserv_filetag", "ft", "WHERE", "t.id", "=", "ft.file_id", "AND", "ft.tag_id", "IN"]

  const MATCH_WORDS: seq<string> :=
    ["SELECT", "file_id", "FROM", "mserv_filetag", "ft", "INNER", "JOIN", "mserv_tag", "tag", "ON",
     "ft.tag_id", "=", "tag.id", "WHERE", "t.id", "=", "ft.file_id", "AND", "tag.name"]

  /** "EXISTS( SELECT file_id FROM ... ft.tag_id IN (", word by word. */
  const IN_TAGS: string := "EXISTS" + ("(" + (" " + (Spaced(IN_WORDS) + "(")))

  /** "EXISTS( SELECT file_id FROM ... tag.name ", word by word. */
  const TAG_MATCHES: string := "EXISTS" + ("(" + (" " + Spaced(MATCH_WORDS)))

  /** No text if there is no id to list, or if a list does not fit. */
  function TagsText(vs: seq<Value>, db: Db): string
  {
    match TagIds(vs, db)
    case None => ""
    case Some(ids) =>
      var list := IdsText(ids, true);
      if list == "" || |list| > SQL_LEN then "" else IN_TAGS + (Kept(list) + "))")
  }

  // ----- tests and expressions -----

  function ColumnText(col: Option<Column>): string
  {
    match col
    case None => "(null)"
    case Some(c) => if c.lower then "lower" + ("(" + (c.name + ")")) else c.name
  }

  /** What printf writes for "%04d". */
  function Pad4(n: int): string
  {
    var d := Digits(if n < 0 then -n else n);
    if n < 0 then "-" + (seq(if |d| < 3 then 3 - |d| else 0, _ => '0') + d)
    else seq(if |d| < 4 then 4 - |d| else 0, _ => '0') + d
  }

  function TestText(t: Test, db: Db): string
  {
    match Find(ENTRIES, TestType(t.field, t.op, TypeOf(t.val)))
    case None => ""
    case Some(Entry(_, format, col)) =>
      match (format, t.val)
      case (NumFormat, Num(n)) => ColumnText(col) + (" " + (SqlOp(t.op) + (" " + Dec(n))))
      case (YearFormat, Num(n)) => ColumnText(col) + (" " + (SqlOp(t.op) + (" " + ("'" + Pad4(n) + "'"))))
      case (StringFormat, Str(s)) => ColumnText(col) + (" " + (SqlOp(t.op) + (" " + Quoted(s))))
      case (TagFormat, v) => TagsText([v], db)
      case (TagListFormat, List(vs)) => TagsText(vs, db)
      case (TagReFormat, Str(s)) => TAG_MATCHES + (SqlOp(t.op) + (" " + (Quoted(s) + ")")))
      case _ => ""
  }

  function ExprText(e: Expr, db: Db): string
  {
    match e
    case Self(t) => TestText(t, db)
    case Not(x) => "NOT ( " + ExprText(x, db) + " )"
    case And(a, b) => "( " + ExprText(a, db) + " )AND( " + ExprText(b, db) + " )"
    case Or(a, b) => "( " + ExprText(a, db) + " )OR( " + ExprText(b, db) + " )"
  }

  // ----- what a filter means -----

  function CompareOp(op: ValOp, a: int, b: int): bool
  {
    match op
    case Eq => a == b
    case Lt => a < b
    case Le => a <= b
    case Gt => a > b
    case Ge => a >= b
    case _ => false
  }

  /** The track carries a tag with this id, or with this name. */
  ghost predicate Tagged(v: Value, row: TrackRow, db: Db)
  {
    match v
    case Num(n) => FileTag(row.id, n) in db.fileTags
    case Str(s) => exists tag :: tag in db.tags && tag.name == s && FileTag(row.id, tag.id) in db.fileTags
    case List(vs) => false
  }

  predicate SameText(a: string, b: string) { LowerAll(a) == LowerAll(b) }

  predicate NamedHolds(op: ValOp, name: string, id: int, val: Value, db: Db)
  {
    match val
    case Num(n) => op == Eq && id == n
    case Str(s) => if op == Eq then SameText(name, s) else op == Re && db.matches(s, name)
    case List(_) => false
  }

  ghost predicate TestHolds(t: Test, row: TrackRow, db: Db)
  {
    match t.field
    case Duration => t.val.Num? && CompareOp(t.op, row.dur, t.val.n)
    case LastPlay => t.val.Num? && CompareOp(t.op, row.lplay, t.val.n)
    case Year => t.val.Num? && CompareOp(t.op, row.year, t.val.n)
    case Pos => t.val.Num? && CompareOp(t.op, row.pos, t.val.n)
    case Title => t.val.Str? && NamedHolds(t.op, row.title, 0, t.val, db)
    case Artist => NamedHolds(t.op, row.artist, row.artistId, t.val, db)
    case Album => NamedHolds(t.op, row.album, row.albumId, t.val, db)
    case Tag =>
      if t.op == Re then
        t.val.Str?
        && exists tag :: tag in db.tags && FileTag(row.id, tag.id) in db.fileTags && db.matches(t.val.s, tag.name)
      else if t.val.List? then exists v :: v in t.val.vs && Tagged(v, row, db)
      else Tagged(t.val, row, db)
    case NoField => false
  }

  ghost predicate Holds(e: Expr, row: TrackRow, db: Db)
  {
    match e
    case Self(t) => TestHolds(t, row, db)
    case Not(x) => !Holds(x, row, db)
    case And(a, b) => Holds(a, row, db) && Holds(b, row, db)
    case Or(a, b) => Holds(a, row, db) || Holds(b, row, db)
  }
}
