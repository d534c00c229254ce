/** The SQL printers as they work: buffers that are filled piece by piece, with checks in between. */
module SqlPrinter {
  import opened Text
  import opened Filter
  import opened Buffer
  import opened SqlLex
  import opened Sql
  import opened SqlCompile

  lemma NamesStep(vs: seq<Value>, i: nat, first: bool)
    requires i < |vs|
    ensures NamesText(vs[i..], first) ==
      if vs[i].Str? then (if first then "" else ",") + (Quoted(vs[i].s) + NamesText(vs[i + 1..], false))
      else NamesText(vs[i + 1..], first)
    ensures Numbers(vs[i..]) == (if vs[i].Num? then [vs[i].n] else []) + Numbers(vs[i + 1..])
  {
    assert vs[i..][0] == vs[i] && vs[i..][1..] == vs[i + 1..];
  }

  lemma NamesEnd(vs: seq<Value>)
    ensures NamesText(vs[|vs|..], true) == NamesText(vs[|vs|..], false) == "" && Numbers(vs[|vs|..]) == []
  {}

  /** Collects the numbers and one query for all names; fails if the query does not fit or fails. */
  method SqlTags2Id(vs: seq<Value>, db: Db) returns (r: Option<seq<int>>)
    ensures r == TagIds(vs, db)
  {
    hide Write, Put, NamesText, Numbers, Quoted, QueryIds;
    var sql := new char[SQL_LEN];
    var used, ids := 0, [];
    ghost var b, full, text := sql[..], NamesText(vs, true), "";
    WriteNothing(b, 0, SQL_LEN);
    assert vs[0..] == vs;
    for i := 0 to |vs|
      invariant used == |text| <= SQL_LEN && sql[..] == Write(b, 0, SQL_LEN, text)
      invariant full == text + NamesText(vs[i..], text == "")
      invariant ids + Numbers(vs[i..]) == Numbers(vs)
    {
      NamesStep(vs, i, text == "");
      ghost var rest := NamesText(vs[i + 1..], false);
      match vs[i] {
        case Num(n) =>
          ids := ids + [n];
        case Str(s) =>
          if used > 0 {
            Step(b, 0, SQL_LEN, text, ",", Quoted(s) + rest, full);
            var n := Snprintf(sql, used, SQL_LEN - used, ",");
            used, text := used + n, text + ",";
            if used > SQL_LEN { return None; }
          } else {
            assert "" + (Quoted(s) + rest) == Quoted(s) + rest;
          }
          var esc := DbEscape(s);
          Step(b, 0, SQL_LEN, text, Quoted(s), rest, full);
          QuotedIs(s);
          var n := Snprintf(sql, used, SQL_LEN - used, "'" + esc[..esc.Length - 1] + "'");
          used, text := used + n, text + Quoted(s);
          if used > SQL_LEN { return None; }
        case List(_) =>
      }
    }
    NamesEnd(vs);
    assert text + "" == text && ids + [] == ids;
    if used == 0 { return Some(ids); }
    WriteMeans(b, 0, SQL_LEN, text);
    var query := sql[..if used < SQL_LEN then used else SQL_LEN - 1];
    assert query == Kept(text);
    match QueryIds(query, db) {
      case None => return None;
      case Some(found) => return Some(ids + found);
    }
  }

  lemma QuotedIs(s: string)
    ensures Quoted(s) == "'" + Escape(s) + "'" != ""
  {}

  lemma IdsStep(ids: seq<int>, i: nat, first: bool)
    requires i < |ids|
    ensures IdsText(ids[i..], first) == (if first then "" else ",") + (Dec(ids[i]) + IdsText(ids[i + 1..], false))
  {
    assert ids[i..][0] == ids[i] && ids[i..][1..] == ids[i + 1..];
  }

  lemma IdsEnd(ids: seq<int>, first: bool)
    ensures IdsText(ids[|ids|..], first) == ""
  {}

  /** The ids as text, if that fits the buffer; one character too many is cut off. */
  method SqlIdList(ids: seq<int>) returns (r: Option<string>)
    ensures r == if |IdsText(ids, true)| > SQL_LEN then None else Some(Kept(IdsText(ids, true)))
  {
    hide Write, Put, IdsText, Dec;
    var sbuf := new char[SQL_LEN];
    var used := 0;
    ghost var b, full, text := sbuf[..], IdsText(ids, true), "";
    WriteNothing(b, 0, SQL_LEN);
    assert ids[0..] == ids;
    for i := 0 to |ids|
      invariant used == |text| <= SQL_LEN && sbuf[..] == Write(b, 0, SQL_LEN, text)
      invariant full == text + IdsText(ids[i..], i == 0)
    {
      IdsStep(ids, i, i == 0);
      ghost var rest := IdsText(ids[i + 1..], false);
      if i != 0 {
        Step(b, 0, SQL_LEN, text, ",", Dec(ids[i]) + rest, full);
        var n := Snprintf(sbuf, used, SQL_LEN - used, ",");
        used, text := used + n, text + ",";
        if used > SQL_LEN { return None; }
      } else {
        assert "" + (Dec(ids[i]) + rest) == Dec(ids[i]) + rest;
      }
      Step(b, 0, SQL_LEN, text, Dec(ids[i]), rest, full);
      var n := Snprintf(sbuf, used, SQL_LEN - used, Dec(ids[i]));
      used, text := used + n, text + Dec(ids[i]);
      if used > SQL_LEN { return None; }
    }
    IdsEnd(ids, |ids| == 0);
    assert text + "" == text;
    if used > 0 { WriteMeans(b, 0, SQL_LEN, text); }
    var list := sbuf[..if used < SQL_LEN then used else SQL_LEN - 1];
    assert list == Kept(text);
    r := Some(list);
  }

  method SqlTagList(buf: array<char>, off: nat, len: nat, vs: seq<Value>, db: Db) returns (used: nat)
    requires off + len <= buf.Length
    modifies buf
    ensures buf[..] == Write(old(buf[..]), off, len, TagsText(vs, db))
    ensures Reports(used, len, TagsText(vs, db))
  {
    hide Put, TagIds, IdsText, Spaced;
    used := 0;
    var ids := SqlTags2Id(vs, db);
    if ids == None { return; }
    var list := SqlIdList(ids.value);
    if list == None || list.value == "" { return; }
    used := Snprintf(buf, off, len, IN_TAGS + (list.value + "))"));
  }

  /** A single test; nothing is written if it has no text. */
  method SqlValTest(buf: array<char>, off: nat, len: nat, t: Test, db: Db) returns (used: nat)
    requires off + len <= buf.Length
    modifies buf
    ensures buf[..] == Write(old(buf[..]), off, len, TestText(t, db))
    ensures Reports(used, len, TestText(t, db))
  {
    hide Put, TagsText, ColumnText, Spaced, Dec, Pad4, Quoted;
    used := 0;
    var entry := FindEntry(TestType(t.field, t.op, TypeOf(t.val)));
    if entry == None { return; }
    var col := entry.value.col;
    match (entry.value.format, t.val) {
      case (NumFormat, Num(n)) =>
        used := Snprintf(buf, off, len, ColumnText(col) + (" " + (SqlOp(t.op) + (" " + Dec(n)))));
      case (YearFormat, Num(n)) =>
        used := Snprintf(buf, off, len, ColumnText(col) + (" " + (SqlOp(t.op) + (" " + ("'" + Pad4(n) + "'")))));
      case (StringFormat, Str(s)) =>
        var esc := DbEscape(s);
        QuotedIs(s);
        used := Snprintf(buf, off, len,
          ColumnText(col) + (" " + (SqlOp(t.op) + (" " + ("'" + esc[..esc.Length - 1] + "'")))));
      case (TagFormat, v) =>
        used := SqlTagList(buf, off, len, [v], db);
      case (TagListFormat, List(vs)) =>
        used := SqlTagList(buf, off, len, vs, db);
      case (TagReFormat, Str(s)) =>
        var esc := DbEscape(s);
        QuotedIs(s);
        used := Snprintf(buf, off, len,
          TAG_MATCHES + (SqlOp(t.op) + (" " + (("'" + esc[..esc.Length - 1] + "'") + ")"))));
      case _ =>
    }
  }

  /** The table is searched from the front. */
  method FindEntry(t: TestType) returns (r: Option<Entry>)
    ensures r == Find(ENTRIES, t)
  {
    var i := 0;
    assert ENTRIES[0..] == ENTRIES;
    while i < |ENTRIES|
      invariant 0 <= i <= |ENTRIES|
      invariant Find(ENTRIES, t) == Find(ENTRIES[i..], t)
    {
      assert ENTRIES[i..][1..] == ENTRIES[i + 1..];
      if ENTRIES[i].typ == t { return Some(ENTRIES[i]); }
      i := i + 1;
    }
    r := None;
  }

  /** The bounded compiler leaves exactly what fits of the clause and reports its length if it fits. */
  method SqlExpr(buf: array<char>, off: nat, len: nat, e: Expr, db: Db) returns (used: nat)
    requires off + len <= buf.Length
    modifies buf
    ensures buf[..] == Write(old(buf[..]), off, len, ExprText(e, db))
    ensures Reports(used, len, ExprText(e, db))
    decreases e, 1
  {
    hide Write, Put, TestText;
    match e
    case Self(t) =>
      used := SqlValTest(buf, off, len, t, db);
    case Not(x) =>
      ghost var b, full, tx := buf[..], ExprText(e, db), ExprText(x, db);
      Cat3("NOT ( ", tx, " )");
      First(b, off, len, "NOT ( ", tx + " )");
      used := Snprintf(buf, off, len, "NOT ( ");
      if used > len { return; }
      Step(b, off, len, "NOT ( ", tx, " )", full);
      var n := SqlExpr(buf, off + used, len - used, x, db);
      used := used + n;
      if used > len { return; }
      Step(b, off, len, "NOT ( " + tx, " )", "", full);
      n := Snprintf(buf, off + used, len - used, " )");
      used := used + n;
    case And(x, y) =>
      used := SqlPair(buf, off, len, e, x, " )AND( ", y, db);
    case Or(x, y) =>
      used := SqlPair(buf, off, len, e, x, " )OR( ", y, db);
  }

  method SqlPair(buf: array<char>, off: nat, len: nat, ghost e: Expr, x: Expr, mid: string, y: Expr, db: Db)
    returns (used: nat)
    requires off + len <= buf.Length && mid != "" && x < e && y < e
    modifies buf
    ensures var text := "( " + ExprText(x, db) + mid + ExprText(y, db) + " )";
      buf[..] == Write(old(buf[..]), off, len, text) && Reports(used, len, text)
    decreases e, 0
  {
    hide Write, Put, ExprText;
    ghost var b, tx, ty := buf[..], ExprText(x, db), ExprText(y, db);
    ghost var full := "( " + tx + mid + ty + " )";
    Cat5("( ", tx, mid, ty, " )");
    First(b, off, len, "( ", tx + (mid + (ty + " )")));
    used := Snprintf(buf, off, len, "( ");
    if used > len { return; }
    Step(b, off, len, "( ", tx, mid + (ty + " )"), full);
    var n := SqlExpr(buf, off + used, len - used, x, db);
    used := used + n;
    if used > len { return; }
    Step(b, off, len, "( " + tx, mid, ty + " )", full);
    n := Snprintf(buf, off + used, len - used, mid);
    used := used + n;
    if used > len { return; }
    Step(b, off, len, "( " + tx + mid, ty, " )", full);
    n := SqlExpr(buf, off + used, len - used, y, db);
    used := used + n;
    if used > len { return; }
    Step(b, off, len, "( " + tx + mid + ty, " )", "", full);
    n := Snprintf(buf, off + used, len - used, " )");
    used := used + n;
  }
}
