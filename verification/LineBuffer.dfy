/** The input buffer of a client, and the loop that processes each incoming line. */
module LineBuffer {
  import opened Text
  import opened Buffer
  import opened Lines

  datatype Fate = Fine | TooLong | Overran

  class InputBuffer {
    const ibuf: array<char>
    var ilen: nat

    ghost predicate Valid()
      reads this, ibuf
    { ibuf.Length == CLIENT_BUFLEN + 1 && ilen <= CLIENT_BUFLEN && '\0' !in ibuf[..ilen] }

    /** The unread input. */
    ghost function Unread(): (s: string)
      requires Valid()
      reads this, ibuf
    { ibuf[..ilen] }

    constructor ()
      ensures Valid() && fresh(ibuf) && ilen == 0
    {
      ibuf := new char[CLIENT_BUFLEN + 1];
      ilen := 0;
    }

    /** Appends what was received, and terminates it. */
    method Read(chunk: string)
      requires Valid() && |chunk| <= CLIENT_BUFLEN - ilen && '\0' !in chunk
      modifies this, ibuf
      ensures Valid() && Unread() == old(Unread()) + chunk && ibuf[ilen] == '\0'
    {
      for i := 0 to |chunk|
        invariant ilen == old(ilen)
        invariant forall j :: 0 <= j < ilen ==> ibuf[j] == old(ibuf[j])
        invariant forall j :: 0 <= j < i ==> ibuf[ilen + j] == chunk[j]
      {
        ibuf[ilen + i] := chunk[i];
      }
      ilen := ilen + |chunk|;
      ibuf[ilen] := '\0';
      assert ibuf[..ilen] == old(ibuf[..ilen]) + chunk;
    }

    /** Extracts a line, going over characters up to a NUL; an overrun is reported and changes nothing here. */
    method GetLine() returns (line: Option<string>, overrun: bool)
      requires Valid() && Searchable(ibuf[..], ilen)
      modifies this, ibuf
      ensures Valid() && Searchable(ibuf[..], ilen)
      ensures match Lines.GetLine(old(ibuf[..]), old(ilen))
        case Line(l, buf, n) => line == Some(l) && !overrun && ibuf[..] == buf && ilen == n
        case NoLine => line == None && !overrun && ibuf[..] == old(ibuf[..]) && ilen == old(ilen)
        case Overrun => line == None && overrun && ibuf[..] == old(ibuf[..]) && ilen == old(ilen)
    {
      hide CString, BreakEnd, TextEnd, Zeroed, Moved, Lines.GetLine;
      ghost var b := ibuf[..];
      ghost var x := CString(b);
      CStringFits(b);
      GetLineSteps(b, ilen);
      GetLineSearchable(b, ilen);
      assert forall i :: 0 <= i < |x| ==> b[i] == x[i] != '\0';
      var s := SkipBreaks(x, 0);
      var n := SkipText(x, s);
      if ibuf[n] == '\0' { return None, false; }
      var m := SkipBreaks(x, n);
      if ilen < m { return None, true; }
      line, overrun := Some(ibuf[s..n]), false;
      TakeOut(n, m);
    }

    /** Overwrites the breaks behind a line, and moves what follows them to the front. */
    method TakeOut(n: nat, m: nat)
      requires Valid() && n <= m <= ilen
      modifies this`ilen, ibuf
      ensures Valid() && ilen == old(ilen) - m && ibuf[..] == Moved(Zeroed(old(ibuf[..]), n, m), m, ilen)
    {
      hide Zeroed, Moved;
      MovedText(ibuf[..], n, m, ilen - m);
      Zero(n, m);
      ilen := ilen - m;
      MoveFront(m, ilen);
    }

    method Zero(n: nat, m: nat)
      requires n <= m <= ibuf.Length
      modifies ibuf
      ensures ibuf[..] == Zeroed(old(ibuf[..]), n, m)
    {
      hide Zeroed;
      for i := n to m
        invariant forall j :: 0 <= j < ibuf.Length ==> ibuf[j] == if n <= j < i then '\0' else old(ibuf[j])
      {
        ibuf[i] := '\0';
      }
    }

    method MoveFront(m: nat, len: nat)
      requires m + len <= ibuf.Length
      modifies ibuf
      ensures ibuf[..] == Moved(old(ibuf[..]), m, len)
    {
      hide Moved;
      for i := 0 to len
        invariant forall j :: 0 <= j < ibuf.Length ==> ibuf[j] == if j < i then old(ibuf[m + j]) else old(ibuf[j])
      {
        ibuf[i] := ibuf[m + i];
      }
      ghost var r := Moved(old(ibuf[..]), m, len);
      assert forall j :: 0 <= j < |r| ==> r[j] == ibuf[j];
    }

    method SkipBreaks(ghost x: string, i: nat) returns (k: nat)
      requires i <= |x| < ibuf.Length && ibuf[|x|] == '\0'
      requires forall j :: 0 <= j < |x| ==> ibuf[j] == x[j] != '\0'
      ensures k == BreakEnd(x, i)
    {
      k := i;
      while ibuf[k] != '\0' && (ibuf[k] == '\n' || ibuf[k] == '\r')
        invariant i <= k <= |x| && BreakEnd(x, i) == BreakEnd(x, k)
        decreases |x| - k
      {
        k := k + 1;
      }
    }

    method SkipText(ghost x: string, i: nat) returns (k: nat)
      requires i <= |x| < ibuf.Length && ibuf[|x|] == '\0'
      requires forall j :: 0 <= j < |x| ==> ibuf[j] == x[j] != '\0'
      ensures k == TextEnd(x, i)
    {
      k := i;
      while ibuf[k] != '\0' && !(ibuf[k] == '\n' || ibuf[k] == '\r')
        invariant i <= k <= |x| && TextEnd(x, i) == TextEnd(x, k)
        decreases |x| - k
      {
        k := k + 1;
      }
    }

    /**
     Processes all complete lines of a buffer that was just terminated; it overruns exactly if the unread text
     is not orderly. Otherwise no line is left, and the buffer may be full.
     */
    method Drain() returns (lines: seq<string>, fate: Fate)
      requires Valid() && ibuf[ilen] == '\0'
      modifies this, ibuf
      ensures Valid()
      ensures fate == Overran <==> !Orderly(old(Unread()), "")
      ensures var all := ScanAll(old(Unread()));
        if fate == Overran then lines <= all.lines
        else lines == all.lines && ScanAll(Unread()) == Scan([], all.pending) && Unread() == Leftover(old(Unread()))
      ensures |lines| == Orders(old(Unread()), "")
      ensures fate == Fine ==> ilen < CLIENT_BUFLEN
      ensures fate == TooLong ==> ilen == CLIENT_BUFLEN
    {
      hide CString, Find, FeedAll, Lines.GetLine, Harmless, TakeLine, Behind, Orderly, Orders, Leftover;
      lines := [];
      ghost var all, text0, stale := ScanAll(Unread()), Unread(), "";
      assert [] + all.lines == all.lines;
      Terminated(ibuf[..], ilen);
      assert text0 + "" == text0;
      while true
        invariant Valid() && Searchable(ibuf[..], ilen) && CString(ibuf[..]) == Unread() + stale
        invariant all == Scan(lines + ScanAll(Unread()).lines, ScanAll(Unread()).pending)
        invariant Orderly(text0, "") <==> Orderly(Unread(), stale)
        invariant Leftover(text0) == Leftover(Unread()) && Orders(text0, "") == |lines| + Orders(Unread(), stale)
        decreases ilen
      {
        ghost var b, n, text := ibuf[..], ilen, Unread();
        Joined(text, stale);
        OrderlyStep(b, n, text, stale);
        GetLineSearchable(b, n);
        TakeLineScans(text);
        var line, overrun := GetLine();
        if overrun { return lines, Overran; }
        if line == None {
          assert lines + [] == lines;
          return lines, if ilen >= CLIENT_BUFLEN then TooLong else Fine;
        }
        assert ibuf[..][..ilen] == Unread();
        stale := StaleAfter(text, stale);
        Regroup(lines, line.value, ScanAll(Unread()).lines);
        lines := lines + [line.value];
      }
    }

    /** One read: the chunk is appended, and all complete lines are processed. */
    method ReadLines(chunk: string) returns (lines: seq<string>, fate: Fate)
      requires Valid() && |chunk| <= CLIENT_BUFLEN - ilen && '\0' !in chunk
      modifies this, ibuf
      ensures Valid() && (fate == Overran <==> !Orderly(old(Unread()) + chunk, ""))
      ensures var text := old(Unread()) + chunk;
        if fate == Overran then lines <= ScanAll(text).lines
        else lines == ScanAll(text).lines && ScanAll(Unread()) == Scan([], ScanAll(text).pending)
             && Unread() == Leftover(text) && (fate == Fine <==> |Leftover(text)| < CLIENT_BUFLEN)
      ensures |lines| == Orders(old(Unread()) + chunk, "")
    {
      hide ScanAll, Orderly, Orders, Leftover;
      Read(chunk);
      lines, fate := Drain();
    }
  }

  lemma Terminated(b: seq<char>, n: nat)
    requires n < |b| && b[n] == '\0' && '\0' !in b[..n]
    ensures Searchable(b, n) && CString(b) == b[..n]
  {
    hide CString;
    assert b == b[..n] + ['\0'] + b[n + 1..];
    CStringIs(b[..n], b[n + 1..]);
  }

  ghost function StaleAfter(text: string, stale: string): string
  { if Find(text).Some? then Behind(text, stale, Find(text).value) else stale }

  /** One call, in terms of the unread text and the stale characters behind it. */
  lemma OrderlyStep(b: seq<char>, n: nat, text: string, stale: string)
    requires Searchable(b, n) && |text| == n && CString(b) == text + stale
    ensures match GetLine(b, n)
      case Overrun => !Orderly(text, stale) && Orders(text, stale) == 0
      case NoLine =>
        TakeLine(text) == None && Orderly(text, stale) && Orders(text, stale) == 0 && Leftover(text) == text
      case Line(line, b', n') =>
        && n' <= |b'| && TakeLine(text) == Some((line, b'[..n']))
        && CString(b') == b'[..n'] + StaleAfter(text, stale)
        && (Orderly(text, stale) <==> Orderly(b'[..n'], StaleAfter(text, stale)))
        && Orders(text, stale) == 1 + Orders(b'[..n'], StaleAfter(text, stale))
        && Leftover(text) == Leftover(b'[..n'])
  {
    hide CString, Find, Harmless, Behind, GetLine;
    Joined(text, stale);
    GetLineExact(b, n);
    if GetLine(b, n).Line? { TakenOut(b, n); }
  }

  lemma Regroup(lines: seq<string>, line: string, rest: seq<string>)
    ensures lines + ([line] + rest) == lines + [line] + rest
  {}

  // ----- a stream that arrives in reads -----

  /** What is left in the buffer, and how much of the stream was used. */
  datatype Progress = Progress(left: string, used: nat)

  /** A read is not larger than the room in the buffer, and there may be less of the stream. */
  function Taken(stream: string, p: Progress, size: nat): (n: nat)
    requires p.used <= |stream| && |p.left| <= CLIENT_BUFLEN
    ensures p.used + n <= |stream| && |p.left| + n <= CLIENT_BUFLEN
  {
    var n := if size > CLIENT_BUFLEN - |p.left| then CLIENT_BUFLEN - |p.left| else size;
    if n > |stream| - p.used then |stream| - p.used else n
  }

  /** Where the first i reads get. */
  function Got(stream: string, sizes: seq<nat>, i: nat): (p: Progress)
    requires i <= |sizes|
    ensures p.used <= |stream| && |p.left| <= CLIENT_BUFLEN
    decreases i, 0
  {
    if i == 0 then Progress("", 0) else
      var p := Got(stream, sizes, i - 1);
      Progress(Leftover(Shown(stream, sizes, i - 1)), p.used + Taken(stream, p, sizes[i - 1]))
  }

  /** The unread text after read i: what was left, and the chunk that was read. */
  function Shown(stream: string, sizes: seq<nat>, i: nat): (s: string)
    requires i < |sizes|
    ensures |s| <= CLIENT_BUFLEN
    decreases i, 1
  {
    var p := Got(stream, sizes, i);
    p.left + stream[p.used..p.used + Taken(stream, p, sizes[i])]
  }

  /** Read i is drained without an overrun, and does not fill the buffer without a complete line. */
  predicate GoesOn(stream: string, sizes: seq<nat>, i: nat)
    requires i < |sizes|
  { Orderly(Shown(stream, sizes, i), "") && |Leftover(Shown(stream, sizes, i))| < CLIENT_BUFLEN }

  /** Read k is the first that does not go on. */
  ghost predicate StopsAt(stream: string, sizes: seq<nat>, k: nat)
  {
    && k < |sizes| && !GoesOn(stream, sizes, k)
    && forall i: nat :: i < k ==> GoesOn(stream, sizes, i)
  }

  /** How many lines there are in front of read k. */
  function LinesBefore(stream: string, sizes: seq<nat>, k: nat): nat
    requires k <= |sizes|
  { |ScanAll(stream[..Got(stream, sizes, k).used]).lines| }

  lemma StopsOnce(stream: string, sizes: seq<nat>, i: nat, k: nat)
    requires StopsAt(stream, sizes, i) && StopsAt(stream, sizes, k)
    ensures i == k
  {}

  /**
   However a stream is split into reads, draining after each read yields exactly its lines, in order, up to an
   overrun or an overlong line. There is an overrun if and only if some read shows a text that is not orderly,
   and an overlong line if and only if some read leaves the buffer full.
   */
  method Receive(stream: string, sizes: seq<nat>) returns (lines: seq<string>, used: nat, fate: Fate)
    requires '\0' !in stream
    ensures used <= |stream|
    ensures if fate == Overran then lines <= ScanAll(stream[..used]).lines else lines == ScanAll(stream[..used]).lines
    ensures fate == Fine <==> forall i: nat :: i < |sizes| ==> GoesOn(stream, sizes, i)
    ensures fate == Overran <==> exists k: nat :: StopsAt(stream, sizes, k) && !Orderly(Shown(stream, sizes, k), "")
    ensures fate == Overran ==> exists k: nat ::
      StopsAt(stream, sizes, k) && |lines| == LinesBefore(stream, sizes, k) + Orders(Shown(stream, sizes, k), "")
    ensures fate == TooLong <==> exists k: nat :: StopsAt(stream, sizes, k) && Orderly(Shown(stream, sizes, k), "")
    ensures fate == Fine ==> used == Got(stream, sizes, |sizes|).used
    ensures fate == Fine && |sizes| >= |stream| && (forall i :: 0 <= i < |sizes| ==> sizes[i] > 0) ==> used == |stream|
  {
    hide ScanAll, CString, Orderly, Orders, Leftover, Got, Taken, GoesOn, StopsAt;
    ghost var steady := forall i :: 0 <= i < |sizes| ==> sizes[i] > 0;
    var buf := new InputBuffer();
    lines, used, fate := [], 0, Fine;
    ScanNothing();
    GotStart(stream, sizes);
    assert stream[..0] == "" && buf.Unread() == "";
    for i := 0 to |sizes|
      invariant fresh(buf) && fresh(buf.ibuf) && buf.Valid() && buf.ilen < CLIENT_BUFLEN
      invariant used <= |stream| && fate == Fine && Got(stream, sizes, i) == Progress(buf.Unread(), used)
      invariant forall j: nat :: j < i ==> GoesOn(stream, sizes, j)
      invariant steady ==> used >= i || used == |stream|
      invariant ScanAll(stream[..used]) == Scan(lines, ScanAll(buf.Unread()).pending)
      invariant ScanAll(buf.Unread()).lines == []
    {
      var n := sizes[i];
      if n > CLIENT_BUFLEN - buf.ilen { n := CLIENT_BUFLEN - buf.ilen; }
      if n > |stream| - used { n := |stream| - used; }
      var chunk := stream[used..used + n];
      ghost var before := buf.Unread();
      TakenIs(stream, Progress(before, used), sizes[i], n);
      ScanMore(stream, used, n, lines, before);
      assert Shown(stream, sizes, i) == before + chunk;
      used := used + n;
      var more;
      more, fate := buf.ReadLines(chunk);
      assert LinesBefore(stream, sizes, i) == |lines|;
      lines := lines + more;
      assert GoesOn(stream, sizes, i) <==> fate == Fine by { WhetherItGoesOn(stream, sizes, i); }
      if fate != Fine {
        assert StopsAt(stream, sizes, i) by { Stopping(stream, sizes, i); }
        forall k: nat | StopsAt(stream, sizes, k) ensures k == i { StopsOnce(stream, sizes, i, k); }
        return;
      }
      GotNext(stream, sizes, i);
    }
    if k: nat :| StopsAt(stream, sizes, k) { Stopped(stream, sizes, k); }
  }

  lemma ScanNothing()
    ensures ScanAll("") == EMPTY
  {
    FeedNothing(EMPTY);
  }

  /** The lines of the stream so far, and then those of the unread text. */
  lemma ScanMore(stream: string, used: nat, n: nat, lines: seq<string>, before: string)
    requires used + n <= |stream|
    requires ScanAll(stream[..used]) == Scan(lines, ScanAll(before).pending) && ScanAll(before).lines == []
    ensures var now := ScanAll(before + stream[used..used + n]);
      ScanAll(stream[..used + n]) == Scan(lines + now.lines, now.pending)
  {
    hide FeedAll;
    var chunk := stream[used..used + n];
    assert stream[..used + n] == stream[..used] + chunk;
    FeedCat(EMPTY, stream[..used], chunk);
    FeedCat(EMPTY, before, chunk);
    FeedShift(lines, ScanAll(before).pending, chunk);
  }

  lemma WhetherItGoesOn(stream: string, sizes: seq<nat>, i: nat)
    requires i < |sizes|
    ensures GoesOn(stream, sizes, i) <==>
      Orderly(Shown(stream, sizes, i), "") && |Leftover(Shown(stream, sizes, i))| < CLIENT_BUFLEN
  {}

  lemma Stopping(stream: string, sizes: seq<nat>, k: nat)
    requires k < |sizes| && !GoesOn(stream, sizes, k) && forall i: nat :: i < k ==> GoesOn(stream, sizes, i)
    ensures StopsAt(stream, sizes, k)
  {}

  lemma Stopped(stream: string, sizes: seq<nat>, k: nat)
    requires StopsAt(stream, sizes, k)
    ensures k < |sizes| && !GoesOn(stream, sizes, k)
  {}

  lemma GotStart(stream: string, sizes: seq<nat>)
    ensures Got(stream, sizes, 0) == Progress("", 0)
  {}

  lemma GotNext(stream: string, sizes: seq<nat>, i: nat)
    requires i < |sizes|
    ensures var p := Got(stream, sizes, i);
      Got(stream, sizes, i + 1) == Progress(Leftover(Shown(stream, sizes, i)), p.used + Taken(stream, p, sizes[i]))
  {}

  lemma TakenIs(stream: string, p: Progress, size: nat, n: nat)
    requires p.used <= |stream| && |p.left| <= CLIENT_BUFLEN
    requires var m := if size > CLIENT_BUFLEN - |p.left| then CLIENT_BUFLEN - |p.left| else size;
      n == if m > |stream| - p.used then |stream| - p.used else m
    ensures Taken(stream, p, size) == n
  {}

  // ----- the same stream, in one read and in two -----

  const TWO_LINES := "a\nbcd\r\n"

  lemma InOneRead()
    ensures Shown(TWO_LINES, [7], 0) == TWO_LINES && !Orderly(TWO_LINES, "")
  {
    hide BreakEnd, TextEnd;
    assert "" + TWO_LINES[0..7] == TWO_LINES;
    FindIs(TWO_LINES, Place(0, 1, 2));
    var rest := "bcd\r\n";
    assert TWO_LINES[2..] == rest;
    assert Behind(TWO_LINES, "", Place(0, 1, 2)) == "\r\n";
    FindIs(rest, Place(0, 3, 5));
    assert !Harmless(rest, "\r\n");
  }

  lemma InTwoReads()
    ensures GoesOn(TWO_LINES, [2, 5], 0) && GoesOn(TWO_LINES, [2, 5], 1)
  {
    hide BreakEnd, TextEnd, Orderly, Leftover, Got, Taken;
    FindIs("a\n", Place(0, 1, 2));
    FindIs("bcd\r\n", Place(0, 3, 5));
    FindsNone("", 0);
    assert "a\n"[2..] == "" && "bcd\r\n"[5..] == "";
    SingleLine("a\n");
    SingleLine("bcd\r\n");
    OnlyLine("a\n");
    OnlyLine("bcd\r\n");
    GotStart(TWO_LINES, [2, 5]);
    TakenIs(TWO_LINES, Progress("", 0), 2, 2);
    assert Shown(TWO_LINES, [2, 5], 0) == "a\n";
    GotNext(TWO_LINES, [2, 5], 0);
    TakenIs(TWO_LINES, Progress("", 2), 5, 5);
    assert Shown(TWO_LINES, [2, 5], 1) == "bcd\r\n";
  }

  lemma OnlyLine(text: string)
    requires Find(text).Some? && Find(text).value.next == |text| && Find("") == None
    ensures Leftover(text) == ""
  {
    hide Find;
    assert text[|text|..] == "";
  }

  /** The same stream overruns when it comes in one read, and does not when it comes line by line. */
  lemma ChunkingMatters()
    ensures !Orderly(Shown(TWO_LINES, [7], 0), "")
    ensures forall i: nat :: i < 2 ==> GoesOn(TWO_LINES, [2, 5], i)
  {
    hide Orderly, Shown, GoesOn;
    InOneRead();
    InTwoReads();
  }
}
