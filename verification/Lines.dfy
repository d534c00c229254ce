/** Reassembling lines from chunks of input: what should happen, and what the buffer code does. */
module Lines {
  import opened Text
  import opened Buffer

  const CLIENT_BUFLEN: nat := 10240

  predicate IsBreak(c: char) { c == '\n' || c == '\r' }

  // ----- what should happen: lines are the non-empty runs that a line break ends -----

  datatype Scan = Scan(lines: seq<string>, pending: string)

  function Feed(st: Scan, c: char): Scan
  {
    if !IsBreak(c) then st.(pending := st.pending + [c])
    else if st.pending == "" then st
    else Scan(st.lines + [st.pending], "")
  }

  function FeedAll(st: Scan, s: string): Scan
  { if s == "" then st else Feed(FeedAll(st, s[..|s| - 1]), s[|s| - 1]) }

  const EMPTY: Scan := Scan([], "")

  /** The lines of a stream, and what is left over. */
  function ScanAll(s: string): Scan { FeedAll(EMPTY, s) }

  lemma {:induction false} FeedCat(st: Scan, a: string, b: string)
    ensures FeedAll(st, a + b) == FeedAll(FeedAll(st, a), b)
  {
    if b == "" {
      assert a + b == a;
    } else {
      assert (a + b)[..|a + b| - 1] == a + b[..|b| - 1];
      FeedCat(st, a, b[..|b| - 1]);
    }
  }

  /** Earlier lines do not matter for what follows. */
  lemma {:induction false} FeedShift(lines: seq<string>, pending: string, s: string)
    ensures var x := FeedAll(Scan([], pending), s);
      FeedAll(Scan(lines, pending), s) == Scan(lines + x.lines, x.pending)
  {
    if s == "" {
      assert lines + [] == lines;
    } else {
      FeedShift(lines, pending, s[..|s| - 1]);
      var x := FeedAll(Scan([], pending), s[..|s| - 1]);
      assert lines + (x.lines + [x.pending]) == lines + x.lines + [x.pending];
    }
  }

  // ----- finding a line in a text -----

  /** The end of the run of line breaks at i. */
  function BreakEnd(s: string, i: nat): (k: nat)
    requires i <= |s|
    ensures i <= k <= |s| && (forall j :: i <= j < k ==> IsBreak(s[j])) && (k < |s| ==> !IsBreak(s[k]))
    decreases |s| - i
  { if i < |s| && IsBreak(s[i]) then BreakEnd(s, i + 1) else i }

  /** The end of the run without line breaks at i. */
  function TextEnd(s: string, i: nat): (k: nat)
    requires i <= |s|
    ensures i <= k <= |s| && (forall j :: i <= j < k ==> !IsBreak(s[j])) && (k < |s| ==> IsBreak(s[k]))
    decreases |s| - i
  { if i < |s| && !IsBreak(s[i]) then TextEnd(s, i + 1) else i }

  /** Where a line starts, where it ends and where the breaks behind it end. */
  datatype Place = Place(start: nat, end: nat, next: nat)

  function Find(s: string): (r: Option<Place>)
    ensures r.Some? ==> r.value.start < r.value.end < r.value.next <= |s|
  {
    var l := BreakEnd(s, 0);
    var k := TextEnd(s, l);
    if k == |s| then None else Some(Place(l, k, BreakEnd(s, k)))
  }

  /** The first complete line, and what follows it. */
  function TakeLine(s: string): Option<(string, string)>
  {
    match Find(s)
    case None => None
    case Some(p) => Some((s[p.start..p.end], s[p.next..]))
  }

  lemma {:induction false} FeedBreaks(st: Scan, s: string)
    requires forall i :: 0 <= i < |s| ==> IsBreak(s[i])
    ensures FeedAll(st, s) == if s == "" || st.pending == "" then st else Scan(st.lines + [st.pending], "")
  {
    if s != "" { FeedBreaks(st, s[..|s| - 1]); }
  }

  lemma {:induction false} FeedText(st: Scan, s: string)
    requires forall i :: 0 <= i < |s| ==> !IsBreak(s[i])
    ensures FeedAll(st, s) == st.(pending := st.pending + s)
  {
    if s == "" {
      assert st.pending + s == st.pending;
    } else {
      FeedText(st, s[..|s| - 1]);
      assert st.pending + s[..|s| - 1] + [s[|s| - 1]] == st.pending + s;
    }
  }

  lemma FeedNothing(st: Scan)
    ensures FeedAll(st, "") == st
  {}

  /** Breaks, then text: nothing but the text is pending. */
  lemma FeedStart(a: string, b: string)
    requires (forall i :: 0 <= i < |a| ==> IsBreak(a[i])) && (forall i :: 0 <= i < |b| ==> !IsBreak(b[i]))
    ensures ScanAll(a + b) == Scan([], b)
  {
    hide FeedAll;
    FeedCat(EMPTY, a, b);
    FeedBreaks(EMPTY, a);
    FeedText(EMPTY, b);
    assert "" + b == b;
  }

  /** Breaks behind pending text make it a line, and what follows is scanned on its own. */
  lemma FeedEnd(line: string, c: string, rest: string)
    requires line != "" && c != "" && (forall i :: 0 <= i < |c| ==> IsBreak(c[i]))
    ensures FeedAll(Scan([], line), c + rest) == Scan([line] + ScanAll(rest).lines, ScanAll(rest).pending)
  {
    hide FeedAll;
    FeedCat(Scan([], line), c, rest);
    FeedBreaks(Scan([], line), c);
    assert [] + [line] == [line];
    FeedShift([line], "", rest);
  }

  /** Taking the first complete line takes the first line of the scan, and no complete line means none. */
  lemma TakeLineScans(s: string)
    ensures match TakeLine(s)
      case None => ScanAll(s).lines == []
      case Some((line, rest)) =>
        ScanAll(s) == Scan([line] + ScanAll(rest).lines, ScanAll(rest).pending) && |rest| < |s|
  {
    hide FeedAll, BreakEnd, TextEnd;
    var l := BreakEnd(s, 0);
    var k := TextEnd(s, l);
    FeedStart(s[..l], s[l..k]);
    assert s[..k] == s[..l] + s[l..k];
    if k == |s| {
      assert s[..k] == s;
    } else {
      var n := BreakEnd(s, k);
      Split(s, k);
      FeedCat(EMPTY, s[..k], s[k..]);
      assert s[k..] == s[k..n] + s[n..];
      FeedEnd(s[l..k], s[k..n], s[n..]);
    }
  }

  // ----- what the buffer code does: it searches up to the next NUL, wherever that is -----

  datatype Outcome = NoLine | Line(line: string, buf: seq<char>, ilen: nat) | Overrun

  /**
   Looks for a line in the C string at the start of the buffer, not just in its first ilen characters;
   moves the rest to the front without terminating it. Taking more than there is overruns the buffer.
   */
  function GetLine(buf: seq<char>, ilen: nat): (r: Outcome)
    requires ilen <= |buf|
  {
    match Find(CString(buf))
    case None => NoLine
    case Some(p) =>
      if ilen < p.next then Overrun
      else
        CStringFits(buf);
        Line(buf[p.start..p.end], Moved(Zeroed(buf, p.end, p.next), p.next, ilen - p.next), ilen - p.next)
  }

  /** The breaks behind the line are overwritten. */
  function Zeroed(b: seq<char>, n: nat, m: nat): (r: seq<char>)
    requires n <= m <= |b|
    ensures |r| == |b| && forall i :: 0 <= i < |b| ==> r[i] == if n <= i < m then '\0' else b[i]
  { b[..n] + seq(m - n, _ => '\0') + b[m..] }

  /** A number of characters is copied to the front. */
  function Moved(b: seq<char>, m: nat, len: nat): (r: seq<char>)
    requires m + len <= |b|
    ensures |r| == |b| && (forall i :: 0 <= i < len ==> r[i] == b[m + i])
    ensures forall i :: len <= i < |b| ==> r[i] == b[i]
  { b[m..m + len] + b[len..] }

  /** The outcome in terms of the three places the code visits. */
  lemma GetLineSteps(b: seq<char>, ilen: nat)
    requires Searchable(b, ilen)
    ensures var x := CString(b);
      var s := BreakEnd(x, 0);
      var n := TextEnd(x, s);
      var m := BreakEnd(x, n);
      GetLine(b, ilen) ==
        if n == |x| then NoLine else if ilen < m then Overrun
        else Line(b[s..n], Moved(Zeroed(b, n, m), m, ilen - m), ilen - m)
  {}

  lemma MovedText(b: seq<char>, n: nat, m: nat, len: nat)
    requires n <= m && m + len <= |b|
    ensures Moved(Zeroed(b, n, m), m, len)[..len] == b[m..m + len]
    ensures forall z :: m <= z < |b| && len <= z ==> Moved(Zeroed(b, n, m), m, len)[z] == b[z]
  {
    hide Moved, Zeroed;
  }

  lemma {:induction false} CStringFits(buf: seq<char>)
    ensures CString(buf) <= buf && '\0' !in CString(buf)
    ensures |CString(buf)| < |buf| ==> buf[|CString(buf)|] == '\0'
  {
    if buf != [] && buf[0] != '\0' { CStringFits(buf[1..]); }
  }

  /**
   When the unread text is followed by stale characters instead of a terminator, this is what the stale
   characters must be like for a call to do the right thing.
   */
  predicate Harmless(text: string, stale: string)
  {
    match Find(text)
    case Some(p) => p.next < |text| || stale == "" || !IsBreak(stale[0])
    case None => if BreakEnd(text, 0) == |text| then Find(stale) == None else TextEnd(stale, 0) == |stale|
  }

  lemma {:induction false} BreakEndCat(a: string, b: string, i: nat)
    requires i <= |a|
    ensures BreakEnd(a + b, i) == if BreakEnd(a, i) < |a| then BreakEnd(a, i) else |a| + BreakEnd(b, 0)
    decreases |a| - i
  {
    if i < |a| {
      assert (a + b)[i] == a[i];
      if IsBreak(a[i]) { BreakEndCat(a, b, i + 1); }
    } else {
      BreakEndBehind(a, b, 0);
    }
  }

  lemma {:induction false} BreakEndBehind(a: string, b: string, i: nat)
    requires i <= |b|
    ensures BreakEnd(a + b, |a| + i) == |a| + BreakEnd(b, i)
    decreases |b| - i
  {
    if i < |b| {
      assert (a + b)[|a| + i] == b[i];
      if IsBreak(b[i]) { BreakEndBehind(a, b, i + 1); }
    }
  }

  lemma {:induction false} TextEndCat(a: string, b: string, i: nat)
    requires i <= |a|
    ensures TextEnd(a + b, i) == if TextEnd(a, i) < |a| then TextEnd(a, i) else |a| + TextEnd(b, 0)
    decreases |a| - i
  {
    if i < |a| {
      assert (a + b)[i] == a[i];
      if !IsBreak(a[i]) { TextEndCat(a, b, i + 1); }
    } else {
      TextEndBehind(a, b, 0);
    }
  }

  lemma {:induction false} TextEndBehind(a: string, b: string, i: nat)
    requires i <= |b|
    ensures TextEnd(a + b, |a| + i) == |a| + TextEnd(b, i)
    decreases |b| - i
  {
    if i < |b| {
      assert (a + b)[|a| + i] == b[i];
      if !IsBreak(b[i]) { TextEndBehind(a, b, i + 1); }
    }
  }

  /** How stale characters change what is found. */
  lemma FindCat(a: string, b: string)
    ensures match Find(a)
      case Some(p) =>
        Find(a + b) == Some(if p.next < |a| then p else p.(next := |a| + BreakEnd(b, 0)))
      case None =>
        if BreakEnd(a, 0) < |a| then
          if TextEnd(b, 0) == |b| then Find(a + b) == None else Find(a + b).Some? && Find(a + b).value.next > |a|
        else match Find(b)
          case None => Find(a + b) == None
          case Some(q) => Find(a + b) == Some(Place(|a| + q.start, |a| + q.end, |a| + q.next))
  {
    hide BreakEnd, TextEnd;
    BreakEndCat(a, b, 0);
    var l := BreakEnd(a, 0);
    TextEndCat(a, b, l);
    var k := TextEnd(a, l);
    BreakEndCat(a, b, k);
    var m := BreakEnd(b, 0);
    TextEndBehind(a, b, m);
    BreakEndBehind(a, b, TextEnd(b, m));
  }

  /** Where the call finds a line: in the unread text, if the stale characters are harmless. */
  lemma HarmlessFind(text: string, stale: string)
    ensures match Find(text + stale)
      case None => Harmless(text, stale) && Find(text) == None
      case Some(p) =>
        if p.next <= |text| then Harmless(text, stale) && Find(text) == Some(p) else !Harmless(text, stale)
  {
    hide BreakEnd, TextEnd;
    FindCat(text, stale);
  }

  lemma Taken(buf: seq<char>, x: string, ilen: nat, p: Place)
    requires x <= buf && ilen <= |x| && p.start < p.end < p.next <= ilen
    ensures var b := Moved(Zeroed(buf, p.end, p.next), p.next, ilen - p.next);
      b[..ilen - p.next] == x[..ilen][p.next..] && buf[p.start..p.end] == x[..ilen][p.start..p.end]
  {
    hide Moved, Zeroed;
    MovedText(buf, p.end, p.next, ilen - p.next);
    assert buf[p.next..ilen] == x[..ilen][p.next..];
  }

  /** A call overruns exactly if the stale characters are harmful; otherwise it takes the line it should. */
  lemma GetLineExact(buf: seq<char>, ilen: nat)
    requires ilen <= |CString(buf)|
    ensures var x := CString(buf); |x| <= |buf| && x <= buf
    ensures var text, stale := CString(buf)[..ilen], CString(buf)[ilen..];
      match GetLine(buf, ilen)
      case Overrun => !Harmless(text, stale)
      case NoLine => Harmless(text, stale) && TakeLine(text) == None
      case Line(line, buf', ilen') =>
        Harmless(text, stale) && ilen' <= |buf'| == |buf| && TakeLine(text) == Some((line, buf'[..ilen']))
  {
    hide CString, Find, Harmless, Moved, Zeroed;
    CStringFits(buf);
    var x := CString(buf);
    var text, stale := x[..ilen], x[ilen..];
    Split(x, ilen);
    HarmlessFind(text, stale);
    if Find(x).Some? && Find(x).value.next <= ilen { Taken(buf, x, ilen, Find(x).value); }
  }

  // ----- the buffer stays searchable -----

  /** There is a terminator somewhere behind the unread text. */
  predicate Searchable(buf: seq<char>, ilen: nat) { ilen <= |CString(buf)| < |buf| }

  lemma {:induction false} CStringBounds(buf: seq<char>, m: nat, z: nat)
    requires m <= z < |buf| && '\0' !in buf[..m] && buf[z] == '\0'
    ensures m <= |CString(buf)| <= z
  {
    if buf[0] != '\0' {
      var m' := if m == 0 then 0 else m - 1;
      assert forall i :: 0 <= i < m' ==> buf[1..][..m'][i] == buf[..m][i + 1];
      CStringBounds(buf[1..], m', z - 1);
    }
  }

  lemma GetLineSearchable(buf: seq<char>, ilen: nat)
    requires Searchable(buf, ilen)
    ensures var r := GetLine(buf, ilen);
      r.Line? ==> |r.buf| == |buf| && r.ilen < ilen && Searchable(r.buf, r.ilen)
  {
    hide CString, BreakEnd, TextEnd, Moved, Zeroed;
    CStringFits(buf);
    var r := GetLine(buf, ilen);
    if r.Line? {
      var z := |CString(buf)|;
      var p := Find(CString(buf)).value;
      MovedText(buf, p.end, p.next, r.ilen);
      assert forall i :: p.next <= i < ilen ==> buf[i] == CString(buf)[i];
      CStringBounds(r.buf, r.ilen, z);
    }
  }

  // ----- when it goes right, and when it does not -----

  /** A place is found from what it looks like. */
  lemma FindIs(x: string, p: Place)
    requires p.start < p.end < p.next <= |x|
    requires forall i :: 0 <= i < p.start ==> IsBreak(x[i])
    requires forall i :: p.start <= i < p.end ==> !IsBreak(x[i])
    requires forall i :: p.end <= i < p.next ==> IsBreak(x[i])
    requires p.next < |x| ==> !IsBreak(x[p.next])
    ensures Find(x) == Some(p)
  {
    hide BreakEnd, TextEnd;
    assert !IsBreak(x[p.start]) && IsBreak(x[p.end]);
    assert BreakEnd(x, 0) == p.start;
    assert TextEnd(x, p.start) == p.end;
    assert BreakEnd(x, p.end) == p.next;
  }

  lemma FindsNone(x: string, l: nat)
    requires l <= |x| && (forall i :: 0 <= i < l ==> IsBreak(x[i])) && (forall i :: l <= i < |x| ==> !IsBreak(x[i]))
    ensures Find(x) == None
  {
    hide BreakEnd, TextEnd;
    assert l < |x| ==> !IsBreak(x[l]);
    assert BreakEnd(x, 0) == l;
    assert TextEnd(x, l) == |x|;
  }

  /** The outcome of a call on a buffer whose C string and place are known. */
  lemma GetLineAt(text: string, pad: seq<char>, ilen: nat, p: Place)
    requires '\0' !in text && ilen <= |text| && Find(text) == Some(p)
    ensures var b := text + ['\0'] + pad;
      GetLine(b, ilen) ==
        if ilen < p.next then Overrun
        else Line(text[p.start..p.end], Moved(Zeroed(b, p.end, p.next), p.next, ilen - p.next), ilen - p.next)
  {
    hide CString, Find, Moved, Zeroed;
    CStringIs(text, pad);
    assert (text + ['\0'] + pad)[p.start..p.end] == text[p.start..p.end];
  }

  const THREE := "aaaa\nbb\nccc"
  const TWO := "bb\ncccb\nccc"
  const ONE := "ccccccb\nccc"

  lemma TakesOne(pad: seq<char>)
    ensures GetLine(THREE + ['\0'] + pad, 11) == Line("aaaa", TWO + ['\0'] + pad, 6)
  {
    hide Find, GetLine, Moved, Zeroed;
    FindIs(THREE, Place(0, 4, 5));
    GetLineAt(THREE, pad, 11, Place(0, 4, 5));
    assert Moved(Zeroed(THREE + ['\0'] + pad, 4, 5), 5, 6) == TWO + ['\0'] + pad;
  }

  lemma TakesTwo(pad: seq<char>)
    ensures GetLine(TWO + ['\0'] + pad, 6) == Line("bb", ONE + ['\0'] + pad, 3)
  {
    hide Find, GetLine, Moved, Zeroed;
    FindIs(TWO, Place(0, 2, 3));
    GetLineAt(TWO, pad, 6, Place(0, 2, 3));
    assert Moved(Zeroed(TWO + ['\0'] + pad, 2, 3), 3, 3) == ONE + ['\0'] + pad;
  }

  /** Three lines in one read, the last one incomplete: the third call overruns the buffer. */
  lemma ThirdCallOverruns(pad: seq<char>)
    ensures var r1 := GetLine("aaaa\nbb\nccc" + ['\0'] + pad, 11);
      r1.Line? && r1.line == "aaaa" && r1.ilen <= |r1.buf|
      && var r2 := GetLine(r1.buf, r1.ilen);
      r2.Line? && r2.line == "bb" && r2.ilen == 3 <= |r2.buf| && GetLine(r2.buf, r2.ilen) == Overrun
  {
    hide Find, GetLine;
    TakesOne(pad);
    TakesTwo(pad);
    FindIs(ONE, Place(0, 7, 8));
    GetLineAt(ONE, pad, 3, Place(0, 7, 8));
  }

  // ----- a whole drain: its fate depends on the unread text alone -----

  /** The stale characters behind the rest once the line at p was taken out: what the move left in place. */
  function Behind(text: string, stale: string, p: Place): string
    requires p.end <= p.next <= |text|
  {
    var r := |text| - p.next;
    if r <= p.end then text[r..p.end]
    else if r < p.next then ""
    else (text + stale)[r..]
  }

  /** All lines of the text can be taken out, one call after the other, with harmless characters behind the rest. */
  predicate Orderly(text: string, stale: string)
    decreases |text|
  {
    && Harmless(text, stale)
    && match Find(text)
       case None => true
       case Some(p) => Orderly(text[p.next..], Behind(text, stale, p))
  }

  /** How many lines are taken out before a call finds other characters behind the rest. */
  function Orders(text: string, stale: string): nat
    decreases |text|
  {
    if !Harmless(text, stale) then 0
    else match Find(text)
      case None => 0
      case Some(p) => 1 + Orders(text[p.next..], Behind(text, stale, p))
  }

  /** What is left of a text without its complete lines. */
  function Leftover(text: string): (r: string)
    ensures |r| <= |text| && Find(r) == None
    decreases |text|
  {
    match Find(text)
    case None => text
    case Some(p) => Leftover(text[p.next..])
  }

  /** Taking a line out leaves exactly these characters in front of the next NUL. */
  lemma TakenOut(buf: seq<char>, ilen: nat)
    requires Searchable(buf, ilen) && GetLine(buf, ilen).Line?
    ensures var x, r := CString(buf), GetLine(buf, ilen);
      var text, stale := x[..ilen], x[ilen..];
      && Find(text).Some? && r.ilen == ilen - Find(text).value.next && |r.buf| == |buf|
      && CString(r.buf) == text[Find(text).value.next..] + Behind(text, stale, Find(text).value)
  {
    hide BreakEnd, TextEnd, CString, Moved, Zeroed, Find;
    CStringFits(buf);
    GetLineExact(buf, ilen);
    var x, r := CString(buf), GetLine(buf, ilen);
    var text, stale := x[..ilen], x[ilen..];
    Split(x, ilen);
    var p := Find(text).value;
    SamePlace(text, stale);
    MovedChars(buf, x, p, r.ilen, text, stale);
    var y := text[p.next..] + Behind(text, stale, p);
    assert r.buf == y + ['\0'] + r.buf[|y| + 1..];
    CStringIs(y, r.buf[|y| + 1..]);
  }

  lemma SamePlace(text: string, stale: string)
    requires Find(text).Some? && Harmless(text, stale)
    ensures Find(text + stale) == Find(text)
  {
    hide BreakEnd, TextEnd;
    FindCat(text, stale);
    assert stale != "" && !IsBreak(stale[0]) ==> BreakEnd(stale, 0) == 0;
  }

  /** The moved buffer, character by character, up to its first NUL. */
  lemma MovedChars(buf: seq<char>, x: string, p: Place, r: nat, text: string, stale: string)
    requires x == text + stale && x <= buf && |x| < |buf| && buf[|x|] == '\0' && '\0' !in x
    requires p.end < p.next <= |text| && r == |text| - p.next
    ensures var y, b := text[p.next..] + Behind(text, stale, p), Moved(Zeroed(buf, p.end, p.next), p.next, r);
      && |y| < |b| && '\0' !in y && b[|y|] == '\0' && forall i :: 0 <= i < |y| ==> b[i] == y[i]
  {
    hide Moved, Zeroed;
    var rest := text[p.next..];
    var y, b := rest + Behind(text, stale, p), Moved(Zeroed(buf, p.end, p.next), p.next, r);
    assert forall i :: 0 <= i < |text| ==> buf[i] == x[i] == text[i];
    assert forall i :: 0 <= i < r ==> b[i] == rest[i];
    if r >= p.next {
      assert y == rest + x[r..];
      assert forall i :: r <= i <= |x| ==> b[i] == buf[i];
    }
  }

  /**
   With one complete line the drain is orderly if and only if what is left is nothing or is at least as long
   as the run of line breaks in front of the line.
   */
  lemma SingleLine(text: string)
    requires Find(text).Some? && Find(text[Find(text).value.next..]) == None
    ensures var p := Find(text).value;
      Orderly(text, "") <==> |text| == p.next || p.start <= |text| - p.next
  {
    hide Find, Behind, Harmless;
    var p := Find(text).value;
    RestIsHarmless(text, p);
    assert Harmless(text, "") by { NothingIsHarmless(text); }
  }

  lemma NothingIsHarmless(text: string)
    ensures Harmless(text, "")
  {}

  lemma RestIsHarmless(text: string, p: Place)
    requires Find(text) == Some(p) && Find(text[p.next..]) == None
    ensures Harmless(text[p.next..], Behind(text, "", p)) <==> |text| == p.next || p.start <= |text| - p.next
  {
    hide BreakEnd, TextEnd, Find, Behind;
    var rest, stale := text[p.next..], Behind(text, "", p);
    TailHasNoBreak(text);
    FindMeans(text);
    BehindOne(text, p);
    assert rest != "" ==> !IsBreak(rest[0]);
    assert BreakEnd(rest, 0) == 0;
    if rest == "" {
      FindsNone(stale, p.start);
    } else if p.start <= |rest| {
      assert TextEnd(stale, 0) == |stale|;
    } else {
      assert TextEnd(stale, 0) == 0;
    }
  }

  /** Behind the only line there are line breaks exactly if the rest is too short to cover those in front of it. */
  lemma BehindOne(text: string, p: Place)
    requires p.start < p.end < p.next <= |text|
    requires forall i :: 0 <= i < p.start ==> IsBreak(text[i])
    requires forall i :: p.start <= i < p.end || p.next <= i < |text| ==> !IsBreak(text[i])
    ensures var r, stale := |text| - p.next, Behind(text, "", p);
      && (r == 0 ==> stale == text[..p.end])
      && (p.start <= r ==> forall i :: 0 <= i < |stale| ==> !IsBreak(stale[i]))
      && (r < p.start ==> stale != "" && IsBreak(stale[0]))
  {
    var r, stale := |text| - p.next, Behind(text, "", p);
    if r <= p.end {
      assert stale == text[r..p.end];
      assert forall i :: 0 <= i < |stale| ==> stale[i] == text[r + i];
      assert r == 0 ==> text[r..p.end] == text[..p.end];
    } else if r >= p.next {
      assert (text + "")[r..] == text[r..];
      assert forall i :: 0 <= i < |stale| ==> stale[i] == text[r + i];
    }
  }

  /** What a found place looks like. */
  lemma FindMeans(x: string)
    requires Find(x).Some?
    ensures var p := Find(x).value;
      && (forall i :: 0 <= i < p.start ==> IsBreak(x[i])) && (forall i :: p.start <= i < p.end ==> !IsBreak(x[i]))
      && (forall i :: p.end <= i < p.next ==> IsBreak(x[i])) && (p.next < |x| ==> !IsBreak(x[p.next]))
  {
    hide BreakEnd, TextEnd;
  }

  lemma TailHasNoBreak(text: string)
    requires Find(text).Some? && Find(text[Find(text).value.next..]) == None
    ensures forall i :: Find(text).value.next <= i < |text| ==> !IsBreak(text[i])
  {
    hide BreakEnd, TextEnd;
    var n := Find(text).value.next;
    var rest := text[n..];
    assert rest != "" ==> rest[0] == text[n];
    assert BreakEnd(rest, 0) == 0;
    assert TextEnd(rest, 0) == |rest|;
    assert forall i :: n <= i < |text| ==> text[i] == rest[i - n];
  }
}
