/** Building a record in a buffer of fixed size, whether it fits or not. */
module TabBuffer {
  import opened Text
  import opened Buffer
  import opened Wire

  const BLEN: nat := 4096

  /**
   The buffer while a record is built. As long as there is room it holds the text. Then it is full: it keeps a
   string, unterminated if that has BLEN characters; over counts the characters beyond BLEN that were accounted
   for, and lost those of them that did not move the write position. Outside means a write outside the buffer.
   */
  datatype Tabs = Room(text: string) | Full(kept: string, over: nat, lost: nat) | Outside

  /** One character, counted in any case. */
  function PushChar(t: Tabs, c: char): Tabs
  {
    match t
    case Room(text) => if |text| + 1 < BLEN then Room(text + [c]) else Full(text + [c], 0, 0)
    case Full(kept, over, lost) => Full(kept, over + 1, lost + 1)
    case Outside => Outside
  }

  /** Text that a library function cuts off and terminates. */
  function PushText(text: string, more: string): Tabs
  {
    var all := text + more;
    if |all| < BLEN then Room(all) else Full(all[..BLEN - 1], |all| - BLEN, 0)
  }

  function PushItem(t: Tabs, a: Arg): Tabs
  {
    match (t, a)
    case (Outside, _) => Outside
    case (_, Chr(c)) => if |EscapeChar(c)| == 1 then PushChar(t, c) else PushChar(PushChar(t, '\\'), EscapeChar(c)[1])
    case (_, Bad) => PushChar(t, '?')
    case (Room(text), Raw(s)) => if |s| < BLEN - |text| then Room(text + s) else t
    case (Room(text), _) => PushText(text, Item(a))
    // a terminator goes in front of the lost characters, if that is still in the buffer
    case (Full(kept, over, lost), Str(s)) =>
      if lost >= BLEN then Outside
      else
        var end := BLEN - 1 - lost;
        Full(if |kept| <= end then kept else kept[..end], over + |EscapeTabs(s)|, lost)
    case (Full(kept, over, lost), Raw(s)) => t
    // with exactly no room nothing is written, with less than none everything is
    case (Full(kept, over, lost), Num(n)) => if over == 0 then Full(kept, |Dec(n)|, lost) else Outside
  }

  function PushArg(t: Tabs, a: Arg): Tabs { PushItem(if t == Room("") then t else PushChar(t, '\t'), a) }

  function Build(args: seq<Arg>): Tabs
  { if args == [] then Room("") else PushArg(Build(args[..|args| - 1]), args[|args| - 1]) }

  /** What a formatter returns; Wild means that it wrote or read outside its buffer. */
  datatype Record = Text(s: string) | Wild

  function Finish(t: Tabs): Record
  {
    match t
    case Room(text) => Text(text)
    case Full(kept, _, _) => if |kept| < BLEN then Text(kept) else Wild
    case Outside => Wild
  }

  function Recorded(args: seq<Arg>): Record { Finish(Build(args)) }

  // ----- records that fit -----

  predicate Sane(t: Tabs)
  {
    match t
    case Room(text) => |text| < BLEN
    case Full(kept, over, lost) => |kept| <= BLEN && lost <= over
    case Outside => true
  }

  lemma PushSane(t: Tabs, a: Arg)
    requires Sane(t)
    ensures Sane(PushArg(t, a))
  {
    hide Item, EscapeTabs, Dec;
  }

  lemma {:induction false} BuildSane(args: seq<Arg>)
    ensures Sane(Build(args))
  {
    hide PushArg, Sane;
    if args != [] {
      BuildSane(args[..|args| - 1]);
      PushSane(Build(args[..|args| - 1]), args[|args| - 1]);
    } else {
      assert Sane(Room("")) by { EmptyIsSane(); }
    }
  }

  lemma EmptyIsSane()
    ensures Sane(Room(""))
  {}

  lemma {:induction false} BuildFits(args: seq<Arg>)
    requires |Tab(args)| < BLEN
    ensures Build(args) == Room(Tab(args))
  {
    hide EscapeTabs, Dec;
    if args != [] {
      var k := |args| - 1;
      TabGrows(args, k);
      BuildFits(args[..k]);
      PushFits(Tab(args[..k]), args[k]);
    }
  }

  lemma PushFits(text: string, a: Arg)
    requires |Next(text, a)| < BLEN && |text| < BLEN
    ensures PushArg(Room(text), a) == Room(Next(text, a))
  {
    hide EscapeTabs, Dec;
    if text == "" {
      assert "" + Item(a) == Item(a);
      if a.Chr? && |EscapeChar(a.c)| == 2 { assert EscapeChar(a.c) == ['\\'] + [EscapeChar(a.c)[1]]; }
    } else {
      assert text + ['\t'] == text + "\t";
      if a.Chr? && |EscapeChar(a.c)| == 2 {
        assert text + "\t" + EscapeChar(a.c) == text + "\t" + ['\\'] + [EscapeChar(a.c)[1]];
      }
    }
  }

  /** A record is what its arguments say if and only if it fits. */
  lemma RecordedExact(args: seq<Arg>)
    ensures Recorded(args) == Text(Tab(args)) <==> |Tab(args)| < BLEN
  {
    hide Build, Tab;
    BuildSane(args);
    if |Tab(args)| < BLEN { BuildFits(args); }
  }

  // ----- exactly which records stay inside the buffer -----

  /** What is accounted for: characters in all, and characters that were lost. */
  datatype Count = Count(used: nat, lost: nat)

  function CountChar(c: Count): Count { Count(c.used + 1, if c.used < BLEN then c.lost else c.lost + 1) }

  function CountTab(c: Count): Count { if c.used == 0 then c else CountChar(c) }

  function CountItem(c: Count, a: Arg): Count
  {
    match a
    case Raw(s) => if |s| + c.used < BLEN then c.(used := c.used + |s|) else c
    case Chr(x) => if |EscapeChar(x)| == 1 then CountChar(c) else CountChar(CountChar(c))
    case Bad => CountChar(c)
    case _ => c.(used := c.used + |Item(a)|)
  }

  function CountArgs(args: seq<Arg>): Count
  { if args == [] then Count(0, 0) else CountItem(CountTab(CountArgs(args[..|args| - 1])), args[|args| - 1]) }

  /** A number with more than BLEN characters in front of it, or a string with BLEN lost ones. */
  predicate GoesWild(c: Count, a: Arg) { (a.Num? && c.used > BLEN) || (a.Str? && c.lost >= BLEN) }

  predicate Counts(t: Tabs, c: Count)
  {
    match t
    case Room(text) => c == Count(|text|, 0) && |text| < BLEN
    case Full(_, over, lost) => c == Count(BLEN + over, lost)
    case Outside => true
  }

  lemma CountedChar(t: Tabs, c: Count, x: char)
    requires Counts(t, c)
    ensures Counts(PushChar(t, x), CountChar(c))
  {}

  lemma CountedItem(t: Tabs, c: Count, a: Arg)
    requires Counts(t, c) && t != Outside
    ensures Counts(PushItem(t, a), CountItem(c, a)) && (PushItem(t, a) == Outside <==> GoesWild(c, a))
  {
    hide EscapeTabs, Dec, EscapeChar, PushChar, CountChar;
    match a
    case Chr(x) =>
      CountedChar(t, c, x);
      CountedChar(t, c, '\\');
      if |EscapeChar(x)| == 2 { CountedChar(PushChar(t, '\\'), CountChar(c), EscapeChar(x)[1]); }
      CharStays(t, x);
      CharStays(t, '\\');
      if |EscapeChar(x)| == 2 { CharStays(PushChar(t, '\\'), EscapeChar(x)[1]); }
    case Bad =>
      CountedChar(t, c, '?');
      CharStays(t, '?');
    case _ =>
  }

  lemma CharStays(t: Tabs, x: char)
    ensures PushChar(t, x) == Outside <==> t == Outside
  {}

  lemma CountedArg(t: Tabs, c: Count, a: Arg)
    requires Counts(t, c) && t != Outside
    ensures Counts(PushArg(t, a), CountItem(CountTab(c), a)) && (PushArg(t, a) == Outside <==> GoesWild(CountTab(c), a))
  {
    hide PushItem, CountItem, PushChar, CountChar, GoesWild;
    CountedChar(t, c, '\t');
    CharStays(t, '\t');
    CountedItem(if t == Room("") then t else PushChar(t, '\t'), CountTab(c), a);
  }

  /** Where argument i starts to be written. */
  function CountAt(args: seq<Arg>, i: nat): Count
    requires i < |args|
  { CountTab(CountArgs(args[..i])) }

  lemma {:induction false} BuildCounts(args: seq<Arg>)
    ensures Counts(Build(args), CountArgs(args))
    ensures Build(args) == Outside <==> exists i: nat :: i < |args| && GoesWild(CountAt(args, i), args[i])
  {
    hide PushArg, CountItem, CountTab, GoesWild;
    if args != [] {
      var k := |args| - 1;
      var init := args[..k];
      BuildCounts(init);
      assert forall i: nat :: i < k ==> CountAt(init, i) == CountAt(args, i) by {
        assert forall i :: 0 <= i < k ==> init[..i] == args[..i];
      }
      assert CountAt(args, k) == CountTab(CountArgs(init));
      if Build(init) != Outside {
        CountedArg(Build(init), CountArgs(init), args[k]);
      } else {
        assert PushArg(Outside, args[k]) == Outside by { OutsideStays(args[k]); }
        var i: nat :| i < |init| && GoesWild(CountAt(init, i), init[i]);
        assert GoesWild(CountAt(args, i), args[i]);
      }
    }
  }

  lemma OutsideStays(a: Arg)
    ensures PushArg(Outside, a) == Outside
  {}

  // ----- exactly which records are terminated -----

  /** The separator takes the last character and no string follows it, or a character or a `?` reaches the end. */
  predicate Fills(c: Count, a: Arg)
  {
    && c.used < BLEN
    && if CountTab(c).used == BLEN then !a.Str? else (a.Chr? || a.Bad?) && CountItem(CountTab(c), a).used >= BLEN
  }

  /** Argument i fills the buffer, and no string comes later to cut it off. */
  predicate LeftFull(args: seq<Arg>, i: nat)
    requires i < |args|
  { Fills(CountArgs(args[..i]), args[i]) && forall j :: i < j < |args| ==> !args[j].Str? }

  predicate Brimful(t: Tabs) { t.Full? && |t.kept| == BLEN }

  lemma CharBrimful(t: Tabs, x: char)
    requires Sane(t)
    ensures Brimful(PushChar(t, x)) <==> Brimful(t) || (t.Room? && |t.text| + 1 == BLEN)
    ensures Sane(PushChar(t, x))
  {}

  lemma ItemBrimful(t: Tabs, c: Count, a: Arg)
    requires Sane(t) && Counts(t, c) && t != Outside && PushItem(t, a) != Outside
    ensures Brimful(PushItem(t, a)) <==>
      || (Brimful(t) && !a.Str?)
      || (t.Room? && (a.Chr? || a.Bad?) && CountItem(c, a).used >= BLEN)
  {
    hide EscapeTabs, Dec, EscapeChar, PushChar, Sane;
    match a
    case Chr(x) =>
      CharBrimful(t, x);
      CharBrimful(t, '\\');
      CountedChar(t, c, '\\');
      CharStays(t, '\\');
      if |EscapeChar(x)| == 2 { CharBrimful(PushChar(t, '\\'), EscapeChar(x)[1]); }
    case Bad => CharBrimful(t, '?');
    case _ => SaneMeans(t);
  }

  lemma SaneMeans(t: Tabs)
    requires Sane(t)
    ensures t.Full? ==> |t.kept| <= BLEN
  {}

  lemma ArgBrimful(t: Tabs, c: Count, a: Arg)
    requires Sane(t) && Counts(t, c) && t != Outside && PushArg(t, a) != Outside
    ensures Brimful(PushArg(t, a)) <==> Fills(c, a) || (Brimful(t) && !a.Str?)
  {
    hide PushItem, CountItem, PushChar, Sane;
    CharBrimful(t, '\t');
    CharStays(t, '\t');
    CountedChar(t, c, '\t');
    ItemBrimful(if t == Room("") then t else PushChar(t, '\t'), CountTab(c), a);
  }

  lemma {:induction false} BuildBrimful(args: seq<Arg>)
    requires Build(args) != Outside
    ensures Brimful(Build(args)) <==> exists i: nat :: i < |args| && LeftFull(args, i)
  {
    hide PushArg, CountArgs, Fills, Brimful;
    if args == [] {
      RoomIsNotFull("");
    } else {
      var k := |args| - 1;
      var init := args[..k];
      OutsideStays(args[k]);
      BuildBrimful(init);
      BuildSane(init);
      BuildCounts(init);
      ArgBrimful(Build(init), CountArgs(init), args[k]);
      forall i: nat | i < k ensures LeftFull(args, i) <==> LeftFull(init, i) && !args[k].Str? {
        assert init[..i] == args[..i];
      }
      assert LeftFull(args, k) <==> Fills(CountArgs(init), args[k]);
      if Brimful(Build(init)) && !args[k].Str? {
        var i: nat :| i < |init| && LeftFull(init, i);
        assert LeftFull(args, i);
      }
    }
  }

  lemma RoomIsNotFull(text: string)
    ensures !Brimful(Room(text))
  {}

  /**
   A record leaves its buffer if and only if a number is formatted behind more than BLEN characters, or a string
   behind BLEN lost ones, or some argument takes the last character of the buffer and no string follows to
   terminate it.
   */
  lemma InsideExact(args: seq<Arg>)
    ensures Recorded(args) == Wild <==>
      || (exists i: nat :: i < |args| && GoesWild(CountAt(args, i), args[i]))
      || (exists i: nat :: i < |args| && LeftFull(args, i))
  {
    hide Build, CountAt, GoesWild, LeftFull;
    BuildCounts(args);
    BuildSane(args);
    if Build(args) != Outside { BuildBrimful(args); }
  }

  // ----- the buffer code -----

  /** The array, the write position and the count of characters agree with the model. */
  ghost predicate Agrees(t: Tabs, b: seq<char>, at: nat, used: nat)
  {
    && |b| == BLEN && Sane(t)
    && match t
       case Room(text) => at == used == |text| && b[..used] == text
       case Full(kept, over, lost) =>
         && used == BLEN + over && at == used - lost
         && b[..|kept|] == kept && (|kept| < BLEN ==> b[|kept|] == '\0')
       case Outside => false
  }

  method AddC(buf: array<char>, at: nat, used: nat, c: char, ghost t: Tabs) returns (at': nat, used': nat)
    requires Agrees(t, buf[..], at, used)
    modifies buf
    ensures Agrees(PushChar(t, c), buf[..], at', used')
  {
    at', used' := at, used + 1;
    if BLEN > used {
      buf[at] := c;
      at' := at + 1;
      assert buf[..used + 1] == t.text + [c];
    }
  }

  lemma PutCut(b: seq<char>, off: nat, len: nat, text: string)
    requires off + len <= |b| && 0 < len <= |text|
    ensures var r := Put(b, off, len, text);
      r[..off + len - 1] == b[..off] + text[..len - 1] && r[off + len - 1] == '\0'
  {}

  /** What a library function leaves of a text for which there is room, or some room. */
  lemma PutAgrees(b: seq<char>, b0: seq<char>, used: nat, text: string, more: string)
    requires |b| == |b0| == BLEN && used == |text| < BLEN && b[..used] == text
    requires b0[..used] == b[..used]
    ensures Agrees(PushText(text, more), Put(b0, used, BLEN - used, more), used + |more|, used + |more|)
  {
    hide Put;
    var room := BLEN - used;
    if |more| < room {
      PutPrefix(b0, used, room, more);
    } else {
      PutCut(b0, used, room, more);
      assert (text + more)[..BLEN - 1] == text + more[..room - 1];
    }
  }

  method AddString(buf: array<char>, at: nat, used: nat, s: string, ghost t: Tabs)
    returns (ok: bool, at': nat, used': nat)
    requires Agrees(t, buf[..], at, used)
    modifies buf
    ensures ok <==> PushItem(t, Str(s)) != Outside
    ensures ok ==> Agrees(PushItem(t, Str(s)), buf[..], at', used')
  {
    hide Put, EscapeTabs;
    at', used', ok := at, used, true;
    ghost var b := buf[..];
    if used < BLEN {
      var l := Ecpy(buf, at, BLEN - used, s);
      PutAgrees(b, b[BLEN - 1 := '\0'], used, t.text, EscapeTabs(s));
      at', used' := at + l, used + l;
    } else {
      var last := at + BLEN - used - 1;
      if last < 0 { return false, at, used; }
      buf[last] := '\0';
      var l := |EscapeTabs(s)|;
      at', used' := at + l, used + l;
      TerminatorAgrees(t, b, at, used, last, l);
    }
  }

  lemma TerminatorAgrees(t: Tabs, b: seq<char>, at: nat, used: nat, last: nat, l: nat)
    requires t.Full? && Agrees(t, b, at, used) && last == at + BLEN - used - 1
    ensures last < BLEN
    ensures var end := BLEN - 1 - t.lost;
      var kept := if |t.kept| <= end then t.kept else t.kept[..end];
      Agrees(Full(kept, t.over + l, t.lost), b[last := '\0'], at + l, used + l)
  {
    var kept, end, b' := t.kept, BLEN - 1 - t.lost, b[last := '\0'];
    if |kept| <= end {
      assert b'[..|kept|] == kept;
    } else {
      assert b'[..end] == kept[..end];
    }
  }

  /** One item behind what is there; not if that would write outside the buffer. */
  method AddItem(buf: array<char>, at: nat, used: nat, a: Arg, ghost t: Tabs) returns (ok: bool, at': nat, used': nat)
    requires Agrees(t, buf[..], at, used)
    modifies buf
    ensures ok <==> PushItem(t, a) != Outside
    ensures ok ==> Agrees(PushItem(t, a), buf[..], at', used')
  {
    hide EscapeTabs, Put, Dec, Write, PushChar, Agrees;
    at', used', ok := at, used, true;
    ghost var b := buf[..];
    AgreesMeans(t, b, at, used);
    match a
    case Str(s) =>
      ok, at', used' := AddString(buf, at, used, s, t);
    case Raw(s) =>
      if |s| < BLEN - used {
        var l := Snprintf(buf, at, BLEN - used, s);
        PutAgrees(b, b, used, t.text, s);
        at', used' := at + l, used + l;
      }
    case Chr(c) =>
      if c == '\t' || c == '\\' {
        at', used' := AddC(buf, at, used, '\\', t);
        at', used' := AddC(buf, at', used', if c == '\t' then 't' else '\\', PushChar(t, '\\'));
      } else {
        at', used' := AddC(buf, at, used, c, t);
      }
      CharsStay(t, c);
    case Num(n) =>
      if used > BLEN { return false, at, used; }
      if used < BLEN {
        var l := Snprintf(buf, at, BLEN - used, Dec(n));
        PutAgrees(b, b, used, t.text, Dec(n));
      } else {
        FullAgrees(t, b, at, used, |Dec(n)|);
      }
      at', used' := at + |Dec(n)|, used + |Dec(n)|;
    case Bad =>
      at', used' := AddC(buf, at, used, '?', t);
      CharStays(t, '?');
  }

  lemma AgreesMeans(t: Tabs, b: seq<char>, at: nat, used: nat)
    requires Agrees(t, b, at, used)
    ensures t != Outside && |b| == BLEN && (t.Room? <==> used < BLEN)
    ensures t.Room? ==> at == used == |t.text| && b[..used] == t.text
    ensures t.Full? ==> used == BLEN + t.over
  {}

  lemma FullAgrees(t: Tabs, b: seq<char>, at: nat, used: nat, l: nat)
    requires t.Full? && t.over == 0 && Agrees(t, b, at, used)
    ensures Agrees(Full(t.kept, l, t.lost), b, at + l, used + l)
  {}

  lemma CharsStay(t: Tabs, c: char)
    ensures PushItem(t, Chr(c)) == Outside <==> t == Outside
  {}

  /** Arguments that are C strings, or not the NUL character. */
  predicate NulFree(a: Arg)
  { match a { case Str(s) => '\0' !in s case Raw(s) => '\0' !in s case Chr(c) => c != '\0' case _ => true } }

  /** A record is built exactly as the model builds it, whether it fits or not. */
  method MkVTab(buf: array<char>, args: seq<Arg>) returns (r: Record)
    requires buf.Length == BLEN && forall i :: 0 <= i < |args| ==> NulFree(args[i])
    modifies buf
    ensures r == Recorded(args)
  {
    hide PushItem, PushChar, Agrees, CString, NulFree;
    buf[0] := '\0';
    var at: nat, used: nat := 0, 0;
    ghost var t := Room("");
    assert args[..0] == [];
    StartAgrees(buf[..]);
    for i := 0 to |args|
      invariant t == Build(args[..i]) && Agrees(t, buf[..], at, used)
    {
      assert args[..i + 1][..i] == args[..i];
      AgreesMeans(t, buf[..], at, used);
      ghost var t1 := t;
      if used > 0 {
        at, used := AddC(buf, at, used, '\t', t);
        t1 := PushChar(t, '\t');
      }
      assert Build(args[..i + 1]) == PushItem(t1, args[i]);
      var ok;
      ok, at, used := AddItem(buf, at, used, args[i], t1);
      t := PushItem(t1, args[i]);
      if !ok {
        StaysOutside(args, i + 1);
        return Wild;
      }
    }
    assert args[..|args|] == args;
    AgreesMeans(t, buf[..], at, used);
    BuildNulFree(args);
    ghost var b := buf[..];
    if BLEN > used { buf[at] := '\0'; }
    ReadBack(t, b, at, used, buf[..]);
    if '\0' !in buf[..] { return Wild; }
    r := Text(CString(buf[..]));
  }

  lemma StartAgrees(b: seq<char>)
    requires |b| == BLEN
    ensures Agrees(Room(""), b, 0, 0)
  {}

  lemma {:induction false} StaysOutside(args: seq<Arg>, i: nat)
    requires i <= |args| && Build(args[..i]) == Outside
    ensures Build(args) == Outside
    decreases |args| - i
  {
    hide PushArg;
    if i == |args| {
      assert args[..i] == args;
    } else {
      assert args[..i + 1][..i] == args[..i];
      OutsideStays(args[i]);
      StaysOutside(args, i + 1);
    }
  }

  /** The string a record keeps. */
  function Keeps(t: Tabs): string
  {
    match t
    case Room(text) => text
    case Full(kept, _, _) => kept
    case Outside => ""
  }

  predicate ArgHas(a: Arg, c: char)
  { match a { case Str(s) => c in s case Raw(s) => c in s case Chr(x) => x == c case _ => false } }

  /** Characters that are not part of escapes, numbers and separators come from an argument. */
  predicate Foreign(c: char) { c != '\\' && c != 't' && c != '\t' && c != '-' && c != '?' && !IsDigit(c) }

  lemma KeepsChar(t: Tabs, x: char, c: char)
    requires c !in Keeps(t) && x != c
    ensures c !in Keeps(PushChar(t, x))
  {}

  lemma KeepsText(text: string, more: string, c: char)
    requires c !in text && c !in more
    ensures c !in Keeps(PushText(text, more))
  {}

  lemma KeepsPushed(t: Tabs, a: Arg, c: char)
    requires Foreign(c) && c !in Keeps(t) && !ArgHas(a, c)
    ensures c !in Keeps(PushItem(t, a))
  {
    hide EscapeTabs, Dec, PushChar, PushText;
    match a
    case Chr(x) =>
      KeepsChar(t, x, c);
      KeepsChar(t, '\\', c);
      if |EscapeChar(x)| == 2 { KeepsChar(PushChar(t, '\\'), EscapeChar(x)[1], c); }
    case Bad => KeepsChar(t, '?', c);
    case Str(s) =>
      EscapeKeeps(s, c);
      if t.Room? { KeepsText(t.text, EscapeTabs(s), c); }
    case Num(n) =>
      DecIsPlain(n, c);
      if t.Room? { KeepsText(t.text, Dec(n), c); }
    case Raw(s) =>
  }

  lemma KeepsItem(t: Tabs, a: Arg, c: char)
    requires Foreign(c) && c !in Keeps(t) && !ArgHas(a, c)
    ensures c !in Keeps(PushArg(t, a))
  {
    hide PushItem, PushChar, Keeps;
    KeepsChar(t, '\t', c);
    KeepsPushed(if t == Room("") then t else PushChar(t, '\t'), a, c);
  }

  lemma {:induction false} BuildKeeps(args: seq<Arg>, c: char)
    requires Foreign(c) && forall i :: 0 <= i < |args| ==> !ArgHas(args[i], c)
    ensures c !in Keeps(Build(args))
  {
    hide PushArg, Keeps, ArgHas;
    if args != [] {
      var k := |args| - 1;
      BuildKeeps(args[..k], c);
      KeepsItem(Build(args[..k]), args[k], c);
    } else {
      assert c !in Keeps(Room("")) by { KeepsNothing(c); }
    }
  }

  lemma KeepsNothing(c: char)
    ensures c !in Keeps(Room(""))
  {}

  lemma BuildNulFree(args: seq<Arg>)
    requires forall i :: 0 <= i < |args| ==> NulFree(args[i])
    ensures '\0' !in Keeps(Build(args))
  {
    hide Build, Keeps;
    forall i | 0 <= i < |args| ensures !ArgHas(args[i], '\0') { assert NulFree(args[i]); }
    BuildKeeps(args, '\0');
  }

  /** The C string in the buffer at the end, if there is a terminator. */
  lemma ReadBack(t: Tabs, b: seq<char>, at: nat, used: nat, b': seq<char>)
    requires Agrees(t, b, at, used) && '\0' !in Keeps(t)
    requires b' == if used < BLEN && at < |b| then b[at := '\0'] else b
    ensures Finish(t) == if '\0' !in b' then Wild else Text(CString(b'))
  {
    hide CString;
    var s := Keeps(t);
    if |s| < BLEN {
      assert b'[..|s|] == s && b'[|s|] == '\0';
      assert b' == s + ['\0'] + b'[|s| + 1..];
      CStringIs(s, b'[|s| + 1..]);
    } else {
      assert b' == s;
    }
  }

  // ----- two formats -----

  lemma BuildTwo(n: int, a: Arg)
    ensures Build([Num(n), a]) == PushArg(PushText("", Dec(n)), a)
    ensures Tab([Num(n), a]) == Dec(n) + "\t" + Item(a)
  {
    hide Dec, PushItem, PushText;
    var args, one := [Num(n), a], [Num(n)];
    assert one[..0] == [];
    assert Build(one) == PushArg(Room(""), Num(n));
    assert Build(one) == PushText("", Dec(n)) by { FirstNumber(n); }
    assert Tab(one) == Dec(n);
    assert args[..1] == one;
  }

  lemma FirstNumber(n: int)
    ensures PushArg(Room(""), Num(n)) == PushText("", Dec(n))
  {}

  /** A number and a string always stay inside. */
  lemma NumberAndString(n: int, s: string)
    ensures Recorded([Num(n), Str(s)]).Text?
  {
    hide EscapeTabs, Dec, Build;
    BuildTwo(n, Str(s));
  }

  /** With another number behind them they do if and only if the number and string leave room for two characters. */
  lemma NumberBehindString(n: int, s: string, m: int)
    ensures Recorded([Num(n), Str(s), Num(m)]).Text? <==> |Tab([Num(n), Str(s)])| < BLEN - 1
  {
    hide EscapeTabs, Dec, Tab;
    var args := [Num(n), Str(s), Num(m)];
    assert args[..2] == [Num(n), Str(s)];
    assert Build(args) == PushArg(Build([Num(n), Str(s)]), Num(m));
    BuildTwo(n, Str(s));
    var text := "" + Dec(n);
    assert text == Dec(n);
    assert |Dec(n) + "\t" + EscapeTabs(s)| == |text| + 1 + |EscapeTabs(s)|;
  }

  /** With a record behind them they do unless there is room for the separator and for nothing else. */
  lemma RecordBehindString(n: int, s: string, r: string)
    ensures Recorded([Num(n), Str(s), Raw(r)]).Text? <==> |Tab([Num(n), Str(s)])| != BLEN - 1
  {
    hide EscapeTabs, Dec, Tab;
    var args := [Num(n), Str(s), Raw(r)];
    assert args[..2] == [Num(n), Str(s)];
    assert Build(args) == PushArg(Build([Num(n), Str(s)]), Raw(r));
    BuildTwo(n, Str(s));
    var text := "" + Dec(n);
    assert text == Dec(n);
    assert |Dec(n) + "\t" + EscapeTabs(s)| == |text| + 1 + |EscapeTabs(s)|;
  }
}
