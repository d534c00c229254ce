/** Records on the wire: tab-separated fields with tabs and backslashes escaped. */
module Wire {
  import opened Text
  import opened Buffer

  // ----- escaping a field -----

  function EscapeChar(c: char): (r: string)
    ensures 1 <= |r| <= 2
  { if c == '\t' then "\\t" else if c == '\\' then "\\\\" else [c] }

  function EscapeTabs(s: string): string
  { if s == "" then "" else EscapeChar(s[0]) + EscapeTabs(s[1..]) }

  /** What a client does to a field; None is a field no server writes. */
  function Unescape(s: string): Option<string>
  {
    if s == "" then Some("")
    else if s[0] != '\\' then Prepend(s[0], Unescape(s[1..]))
    else if |s| == 1 then None
    else if s[1] == 't' then Prepend('\t', Unescape(s[2..]))
    else if s[1] == '\\' then Prepend('\\', Unescape(s[2..]))
    else None
  }

  function Prepend(c: char, s: Option<string>): Option<string>
  { if s == None then None else Some([c] + s.value) }

  lemma {:induction false} EscapeCat(a: string, b: string)
    ensures EscapeTabs(a + b) == EscapeTabs(a) + EscapeTabs(b)
  {
    if a == "" {
      assert a + b == b;
    } else {
      assert (a + b)[1..] == a[1..] + b;
      EscapeCat(a[1..], b);
    }
  }

  lemma EscapeNext(s: string, i: nat)
    requires i < |s|
    ensures EscapeTabs(s[..i + 1]) == EscapeTabs(s[..i]) + EscapeChar(s[i])
  {
    assert s[..i + 1] == s[..i] + [s[i]];
    EscapeCat(s[..i], [s[i]]);
    assert [s[i]][1..] == "";
  }

  /** No raw tab is left, and unescaping gives the field back. */
  lemma {:induction false} FieldRoundTrip(s: string)
    ensures '\t' !in EscapeTabs(s) && Unescape(EscapeTabs(s)) == Some(s)
  {
    if s != "" {
      FieldRoundTrip(s[1..]);
      var e, rest := EscapeChar(s[0]), EscapeTabs(s[1..]);
      assert EscapeTabs(s) == e + rest;
      assert (e + rest)[|e|..] == rest;
      assert [s[0]] + s[1..] == s;
    }
  }

  /** Escaping adds no character but backslashes and the letter t. */
  lemma {:induction false} EscapeKeeps(s: string, c: char)
    requires c != '\\' && c != 't' && c != '\t'
    ensures c in EscapeTabs(s) <==> c in s
  {
    if s != "" {
      EscapeKeeps(s[1..], c);
      assert s == [s[0]] + s[1..];
    }
  }

  lemma {:induction false} EscapePlain(s: string)
    requires '\t' !in s && '\\' !in s
    ensures EscapeTabs(s) == s
  {
    if s != "" {
      EscapePlain(s[1..]);
      assert s == [s[0]] + s[1..];
    }
  }

  // ----- splitting a line into fields -----

  function SplitTabs(s: string): (r: seq<string>)
    ensures |r| >= 1
  {
    if s == "" then [""] else
      var r := SplitTabs(s[1..]);
      if s[0] == '\t' then [""] + r else [[s[0]] + r[0]] + r[1..]
  }

  function UnescapeAll(fs: seq<string>): Option<seq<string>>
  {
    if fs == [] then Some([]) else
      var f, rest := Unescape(fs[0]), UnescapeAll(fs[1..]);
      if f == None || rest == None then None else Some([f.value] + rest.value)
  }

  /** What a client makes of a record: split at raw tabs, then undo the escapes. */
  function Decode(line: string): Option<seq<string>> { UnescapeAll(SplitTabs(line)) }

  lemma {:induction false} SplitJoin(x: string, y: string)
    ensures SplitTabs(x + "\t" + y) == SplitTabs(x) + SplitTabs(y)
  {
    var s := x + "\t" + y;
    if x == "" {
      assert s == "\t" + y;
      assert s[1..] == y;
    } else {
      assert s[1..] == x[1..] + "\t" + y;
      SplitJoin(x[1..], y);
    }
  }

  lemma {:induction false} SplitSingle(x: string)
    requires '\t' !in x
    ensures SplitTabs(x) == [x]
  {
    if x != "" {
      SplitSingle(x[1..]);
      assert [x[0]] + x[1..] == x;
    }
  }

  lemma {:induction false} UnescapeCat(a: seq<string>, b: seq<string>)
    ensures UnescapeAll(a + b) ==
      if UnescapeAll(a) == None || UnescapeAll(b) == None then None
      else Some(UnescapeAll(a).value + UnescapeAll(b).value)
  {
    if a == [] {
      assert a + b == b;
      if UnescapeAll(b) != None { assert [] + UnescapeAll(b).value == UnescapeAll(b).value; }
    } else {
      assert (a + b)[1..] == a[1..] + b;
      UnescapeCat(a[1..], b);
      var f := Unescape(a[0]);
      if f != None && UnescapeAll(a[1..]) != None && UnescapeAll(b) != None {
        assert [f.value] + (UnescapeAll(a[1..]).value + UnescapeAll(b).value)
            == [f.value] + UnescapeAll(a[1..]).value + UnescapeAll(b).value;
      }
    }
  }

  lemma DecodeJoin(x: string, y: string)
    requires Decode(x).Some? && Decode(y).Some?
    ensures Decode(x + "\t" + y) == Some(Decode(x).value + Decode(y).value)
  {
    SplitJoin(x, y);
    UnescapeCat(SplitTabs(x), SplitTabs(y));
  }

  lemma DecodeField(s: string)
    ensures Decode(EscapeTabs(s)) == Some([s])
  {
    FieldRoundTrip(s);
    SplitSingle(EscapeTabs(s));
    var e := [EscapeTabs(s)];
    assert e[1..] == [];
    assert UnescapeAll(e) == Some([s] + []);
    assert [s] + [] == [s];
  }

  // ----- a record from its format -----

  /** An argument together with its format letter; Bad is a letter the formatter does not know. */
  datatype Arg = Str(s: string) | Raw(s: string) | Chr(c: char) | Num(n: int) | Bad

  function Item(a: Arg): string
  {
    match a
    case Str(s) => EscapeTabs(s)
    case Raw(s) => s
    case Chr(c) => EscapeChar(c)
    case Num(n) => Dec(n)
    case Bad => "?"
  }

  /** A separator goes in front of an item only if something was written before. */
  function Next(text: string, a: Arg): string { if text == "" then Item(a) else text + "\t" + Item(a) }

  function Tab(args: seq<Arg>): string
  { if args == [] then "" else Next(Tab(args[..|args| - 1]), args[|args| - 1]) }

  lemma TabNext(args: seq<Arg>, i: nat)
    requires i < |args|
    ensures Tab(args[..i + 1]) == Next(Tab(args[..i]), args[i])
  { assert args[..i + 1][..i] == args[..i]; }

  /** Text never gets shorter. */
  lemma {:induction false} TabGrows(args: seq<Arg>, i: nat)
    requires i <= |args|
    ensures |Tab(args[..i])| <= |Tab(args)|
    decreases |args| - i
  {
    if i == |args| {
      assert args[..i] == args;
    } else {
      TabNext(args, i);
      TabGrows(args, i + 1);
    }
  }

  predicate Decodable(a: Arg) { Decode(Item(a)).Some? }

  function FieldsOf(args: seq<Arg>): seq<string>
    requires forall i :: 0 <= i < |args| ==> Decodable(args[i])
  {
    if args == [] then [] else
      assert Decodable(args[|args| - 1]);
      FieldsOf(args[..|args| - 1]) + Decode(Item(args[|args| - 1])).value
  }

  /** A record that starts with a non-empty item is read back as its fields, those of nested records in place. */
  lemma {:induction false} TabDecodes(args: seq<Arg>)
    requires args != [] && Item(args[0]) != "" && forall i :: 0 <= i < |args| ==> Decodable(args[i])
    ensures Tab(args) != "" && Decode(Tab(args)) == Some(FieldsOf(args))
  {
    var k := |args| - 1;
    var init, last := args[..k], args[k];
    if k == 0 {
      assert FieldsOf(init) == [];
      assert [] + Decode(Item(last)).value == Decode(Item(last)).value;
    } else {
      TabDecodes(init);
      DecodeJoin(Tab(init), Item(last));
    }
  }

  lemma DecodableArgs()
    ensures forall s :: Decodable(Str(s)) && Decode(Item(Str(s))) == Some([s])
    ensures forall n :: Decodable(Num(n)) && Decode(Item(Num(n))) == Some([Dec(n)])
  {
    forall s ensures Decodable(Str(s)) && Decode(Item(Str(s))) == Some([s]) { DecodeField(s); }
    forall n ensures Decodable(Num(n)) && Decode(Item(Num(n))) == Some([Dec(n)]) {
      DecIsPlain(n, '\t');
      DecIsPlain(n, '\\');
      EscapePlain(Dec(n));
      DecodeField(Dec(n));
    }
  }

  lemma DecIsPlain(n: int, c: char)
    requires !IsDigit(c) && c != '-'
    ensures c !in Dec(n)
  {
    hide Digits;
    assert c !in Digits(if n < 0 then -n else n);
  }

  // ----- exactly which lists of strings survive -----

  function Strs(fs: seq<string>): (r: seq<Arg>)
    ensures |r| == |fs| && forall i :: 0 <= i < |fs| ==> r[i] == Str(fs[i])
  { seq(|fs|, i requires 0 <= i < |fs| => Str(fs[i])) }

  lemma {:induction false} StrFields(fs: seq<string>)
    ensures forall i :: 0 <= i < |fs| ==> Decodable(Strs(fs)[i])
    ensures FieldsOf(Strs(fs)) == fs
  {
    hide Decode, Item, EscapeTabs;
    DecodableArgs();
    if fs != [] {
      var k := |fs| - 1;
      StrFields(fs[..k]);
      assert Strs(fs)[..k] == Strs(fs[..k]);
      assert FieldsOf(Strs(fs)) == fs[..k] + [fs[k]];
      assert fs == fs[..k] + [fs[k]];
    }
  }

  /** Skipped separators are lost: there are never more fields than arguments, and fewer if the first is empty. */
  lemma {:induction false} FieldsLost(fs: seq<string>)
    requires fs != []
    ensures |SplitTabs(Tab(Strs(fs)))| <= |fs|
    ensures |fs| > 1 && fs[0] == "" ==> |SplitTabs(Tab(Strs(fs)))| < |fs|
  {
    var k := |fs| - 1;
    assert Strs(fs)[..k] == Strs(fs[..k]);
    var init, last := Tab(Strs(fs[..k])), EscapeTabs(fs[k]);
    FieldRoundTrip(fs[k]);
    SplitSingle(last);
    if k > 0 {
      FieldsLost(fs[..k]);
      if init != "" { SplitJoin(init, last); }
      if k == 1 {
        assert Strs(fs[..1])[..0] == [];
      }
    }
  }

  lemma {:induction false} UnescapeLength(fs: seq<string>)
    ensures UnescapeAll(fs).Some? ==> |UnescapeAll(fs).value| == |fs|
  {
    if fs != [] { UnescapeLength(fs[1..]); }
  }

  /** A list of strings comes back if and only if it is a single string or its first string is not empty. */
  lemma RowExact(fs: seq<string>)
    ensures Decode(Tab(Strs(fs))) == Some(fs) <==> |fs| == 1 || (|fs| > 1 && fs[0] != "")
  {
    UnescapeLength(SplitTabs(Tab(Strs(fs))));
    StrFields(fs);
    if |fs| == 1 {
      assert Strs(fs)[..0] == [];
      DecodeField(fs[0]);
      assert [fs[0]] == fs;
    } else if |fs| > 1 {
      FieldsLost(fs);
      if fs[0] != "" {
        assert EscapeTabs(fs[0]) != "";
        TabDecodes(Strs(fs));
      }
    }
  }

  /** An empty first field is lost. */
  lemma EmptyFirstIsLost()
    ensures Tab(Strs(["", "a"])) == "a" && Decode("a") == Some(["a"])
  {
    var args := Strs(["", "a"]);
    assert args[..1] == [Str("")] && args[..1][..0] == [];
    EscapePlain("a");
    DecodeField("a");
  }

  // ----- the buffer code -----

  /** The first room characters of the text, at off. */
  function Filled(b: seq<char>, off: nat, room: nat, text: string): (r: seq<char>)
    requires off + room <= |b|
    ensures |r| == |b|
  {
    var k := if |text| < room then |text| else room;
    b[..off] + text[..k] + b[off + k..]
  }

  lemma FilledNext(b: seq<char>, off: nat, room: nat, text: string, c: char)
    requires off + room <= |b|
    ensures Filled(b, off, room, text + [c]) ==
      if |text| < room then Filled(b, off, room, text)[off + |text| := c] else Filled(b, off, room, text)
  {
    if |text| >= room {
      assert (text + [c])[..room] == text[..room];
    } else {
      assert (text + [c])[..|text| + 1] == text + [c];
      assert text[..|text|] == text;
    }
  }

  /** One character, if there is room for it; it is counted in any case. */
  method AddChar(buf: array<char>, off: nat, room: nat, used: nat, c: char) returns (used': nat)
    requires off + room <= buf.Length
    modifies buf
    ensures used' == used + 1
    ensures buf[..] == if used < room then old(buf[..])[off + used := c] else old(buf[..])
  {
    if used < room { buf[off + used] := c; }
    used' := used + 1;
  }

  /** One character, escaped. */
  method AddEscaped(buf: array<char>, off: nat, room: nat, used: nat, c: char, ghost b: seq<char>, ghost text: string)
    returns (used': nat)
    requires off + room <= buf.Length == |b| && used == |text| && buf[..] == Filled(b, off, room, text)
    modifies buf
    ensures used' == |text + EscapeChar(c)| && buf[..] == Filled(b, off, room, text + EscapeChar(c))
  {
    hide Filled;
    if c == '\t' || c == '\\' {
      var d := if c == '\t' then 't' else '\\';
      FilledNext(b, off, room, text, '\\');
      FilledNext(b, off, room, text + ['\\'], d);
      assert text + EscapeChar(c) == text + ['\\'] + [d];
      used' := AddChar(buf, off, room, used, '\\');
      used' := AddChar(buf, off, room, used', d);
    } else {
      FilledNext(b, off, room, text, c);
      used' := AddChar(buf, off, room, used, c);
    }
  }

  /** Copies a string, escaped: it is cut off and terminated like snprintf would, and its full length returned. */
  method Ecpy(buf: array<char>, off: nat, len: nat, s: string) returns (used: nat)
    requires off + len <= buf.Length && len > 0
    modifies buf
    ensures used == |EscapeTabs(s)|
    ensures buf[..] == Put(old(buf[..])[off + len - 1 := '\0'], off, len, EscapeTabs(s))
  {
    hide EscapeTabs, Filled;
    var room := len - 1;
    buf[off + room] := '\0';
    ghost var b := buf[..];
    used := 0;
    FilledBegin(b, off, room);
    assert s[..0] == "" && EscapeTabs("") == "" by { EscapeNothing(); }
    for i := 0 to |s|
      invariant used == |EscapeTabs(s[..i])| && buf[..] == Filled(b, off, room, EscapeTabs(s[..i]))
    {
      EscapeNext(s, i);
      used := AddEscaped(buf, off, room, used, s[i], b, EscapeTabs(s[..i]));
    }
    assert s[..|s|] == s;
    FilledEnd(b, off, room, EscapeTabs(s));
    if room > used { buf[off + used] := '\0'; }
  }

  lemma EscapeNothing()
    ensures EscapeTabs("") == ""
  {}

  lemma FilledBegin(b: seq<char>, off: nat, room: nat)
    requires off + room <= |b|
    ensures Filled(b, off, room, "") == b
  {}

  lemma FilledEnd(b: seq<char>, off: nat, room: nat, text: string)
    requires off + room < |b| && b[off + room] == '\0'
    ensures Put(b, off, room + 1, text) ==
      if |text| < room then Filled(b, off, room, text)[off + |text| := '\0'] else Filled(b, off, room, text)
  {
    if |text| >= room {
      var k := if |text| < room + 1 then |text| else room;
      assert k == room;
      assert b[off + room..] == ['\0'] + b[off + room + 1..];
      assert Filled(b, off, room, text) == b[..off] + text[..room] + (['\0'] + b[off + room + 1..]);
    } else {
      var f := Filled(b, off, room, text);
      assert text[..|text|] == text;
      assert f[..off + |text|] == b[..off] + text;
      assert f[off + |text| + 1..] == b[off + |text| + 1..];
    }
  }

  lemma PutPrefix(b: seq<char>, off: nat, len: nat, text: string)
    requires off + len <= |b| && |text| < len
    ensures Put(b, off, len, text)[..off + |text|] == b[..off] + text
  {
    assert text[..|text|] == text;
  }
}
