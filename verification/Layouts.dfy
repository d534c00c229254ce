/** What records and replies look like, character by character. */
module Layouts {
  import opened Text
  import opened Wire
  import opened Records
  import Reply

  // ----- one text for every list of fields -----

  /** Fields, escaped and separated by tabs. */
  function Encoded(fs: seq<string>): string
    requires fs != []
  { if |fs| == 1 then EscapeTabs(fs[0]) else EscapeTabs(fs[0]) + "\t" + Encoded(fs[1..]) }

  /** How the two special characters look, wherever they are. */
  lemma EscapedLooks(a: string, b: string)
    ensures EscapeTabs(a + "\t" + b) == EscapeTabs(a) + "\\t" + EscapeTabs(b)
    ensures EscapeTabs(a + "\\" + b) == EscapeTabs(a) + "\\\\" + EscapeTabs(b)
  {
    hide EscapeChar;
    EscapeCat(a + "\t", b);
    EscapeCat(a, "\t");
    EscapeCat(a + "\\", b);
    EscapeCat(a, "\\");
    assert EscapeTabs("\t") == "\\t" && EscapeTabs("\\") == "\\\\" by { OneEscaped(); }
  }

  lemma OneEscaped()
    ensures EscapeTabs("\t") == "\\t" && EscapeTabs("\\") == "\\\\"
  {
    assert "\t"[1..] == "" && "\\"[1..] == "";
  }

  /** Only its escaped form is read as a field. */
  lemma {:induction false} UnescapeExact(s: string, f: string)
    requires '\t' !in s && Unescape(s) == Some(f)
    ensures s == EscapeTabs(f)
  {
    if s != "" {
      var n := if s[0] == '\\' then 2 else 1;
      assert f[1..] == Unescape(s[n..]).value;
      UnescapeExact(s[n..], f[1..]);
      Split(s, n);
    }
  }

  function Rejoined(fs: seq<string>): string
    requires fs != []
  { if |fs| == 1 then fs[0] else fs[0] + "\t" + Rejoined(fs[1..]) }

  lemma {:induction false} SplitExact(s: string)
    ensures var fs := SplitTabs(s);
      Rejoined(fs) == s && forall i :: 0 <= i < |fs| ==> '\t' !in fs[i]
  {
    if s != "" {
      SplitExact(s[1..]);
      var r := SplitTabs(s[1..]);
      var fs := SplitTabs(s);
      Split(s, 1);
      if s[0] == '\t' {
        assert fs[1..] == r;
      } else {
        assert fs[0] == [s[0]] + r[0] && fs[1..] == r[1..];
      }
    }
  }

  lemma {:induction false} UnescapedAll(fs: seq<string>, gs: seq<string>)
    requires fs != [] && UnescapeAll(fs) == Some(gs) && forall i :: 0 <= i < |fs| ==> '\t' !in fs[i]
    ensures gs != [] && Rejoined(fs) == Encoded(gs)
  {
    UnescapeExact(fs[0], gs[0]);
    if |fs| > 1 {
      assert gs[1..] == UnescapeAll(fs[1..]).value;
      UnescapedAll(fs[1..], gs[1..]);
    } else {
      assert UnescapeAll(fs[1..]) == Some([]);
      assert gs == [gs[0]];
    }
  }

  lemma {:induction false} EncodedDecodes(fs: seq<string>)
    requires fs != []
    ensures Decode(Encoded(fs)) == Some(fs)
  {
    FieldRoundTrip(fs[0]);
    SplitSingle(EscapeTabs(fs[0]));
    if |fs| == 1 {
      var one := [EscapeTabs(fs[0])];
      assert one[1..] == [] && UnescapeAll([]) == Some([]);
      assert [fs[0]] + [] == fs;
    } else {
      var e, rest := EscapeTabs(fs[0]), Encoded(fs[1..]);
      SplitJoin(e, rest);
      EncodedDecodes(fs[1..]);
      var all := [e] + SplitTabs(rest);
      assert all[1..] == SplitTabs(rest) && [fs[0]] + fs[1..] == fs;
    }
  }

  /** There is exactly one line that is read as these fields. */
  lemma DecodeExact(line: string, fs: seq<string>)
    ensures Decode(line) == Some(fs) <==> fs != [] && line == Encoded(fs)
  {
    hide SplitTabs, Encoded, Rejoined;
    if Decode(line) == Some(fs) {
      SplitExact(line);
      UnescapedAll(SplitTabs(line), fs);
    }
    if fs != [] && line == Encoded(fs) { EncodedDecodes(fs); }
  }

  // ----- records -----

  lemma UserLayout(u: Option<User>)
    ensures Tab(UserArgs(u)) ==
      if u == None then Encoded(["0", "UNKNOWN", "0"]) else Encoded([Dec(u.value.id), u.value.name, Dec(u.value.right)])
  {
    hide Tab, Decode, Encoded;
    UserLine(u);
    DecodeExact(Tab(UserArgs(u)), UserFields(Known(u)));
  }

  lemma ClientLayout(c: Client)
    ensures var u := Known(c.user);
      Tab(ClientArgs(c)) == Encoded([Dec(c.id), c.address, Dec(u.id), u.name, Dec(u.right)])
  {
    hide Tab, Decode, Encoded, Dec, Known;
    var u := Known(c.user);
    ClientLine(c);
    DecodeExact(Tab(ClientArgs(c)), ClientFields(c));
    assert ClientFields(c) == [Dec(c.id), c.address, Dec(u.id), u.name, Dec(u.right)];
  }

  lemma TagLayout(t: Tag)
    ensures Tab(TagArgs(t)) == Encoded([Dec(t.id), t.name, t.desc])
  {
    hide Tab, Decode, Encoded, Dec;
    NamedLine(t.id, t.name, t.desc);
    DecodeExact(Tab(TagArgs(t)), [Dec(t.id), t.name, t.desc]);
  }

  lemma SFilterLayout(f: SFilter)
    ensures Tab(SFilterArgs(f)) == Encoded([Dec(f.id), f.name, f.filter])
  {
    hide Tab, Decode, Encoded, Dec;
    NamedLine(f.id, f.name, f.filter);
    DecodeExact(Tab(SFilterArgs(f)), [Dec(f.id), f.name, f.filter]);
  }

  lemma ArtistLayout(a: Artist)
    ensures Tab(ArtistArgs(a)) == Encoded([Dec(a.id), a.artist])
  {
    hide Tab, Decode, Encoded, Dec;
    ArtistLine(a);
    DecodeExact(Tab(ArtistArgs(a)), [Dec(a.id), a.artist]);
  }

  lemma AlbumLayout(a: Album)
    ensures Tab(AlbumArgs(a)) == Encoded([Dec(a.id), a.album, Dec(a.year), Dec(a.artist.id), a.artist.artist])
  {
    hide Tab, Decode, Encoded, Dec;
    AlbumLine(a);
    DecodeExact(Tab(AlbumArgs(a)), AlbumFields(a));
    assert AlbumFields(a) == [Dec(a.id), a.album, Dec(a.year), Dec(a.artist.id), a.artist.artist];
  }

  /** The eleven fields of a track. */
  function TrackList(t: Track): seq<string>
  {
    [Dec(t.id), Dec(t.albumnr), t.title, Dec(t.duration), Dec(t.artist.id), t.artist.artist,
     Dec(t.album.id), t.album.album, Dec(t.album.year), Dec(t.album.artist.id), t.album.artist.artist]
  }

  lemma TrackListIs(t: Track)
    ensures TrackFields(t) == TrackList(t)
  {
    hide Dec;
  }

  lemma TrackLayout(t: Track)
    ensures Tab(TrackArgs(t)) == Encoded(
      [Dec(t.id), Dec(t.albumnr), t.title, Dec(t.duration), Dec(t.artist.id), t.artist.artist,
       Dec(t.album.id), t.album.album, Dec(t.album.year), Dec(t.album.artist.id), t.album.artist.artist])
  {
    hide Tab, Decode, Encoded, Dec, TrackFields;
    TrackLine(t);
    TrackListIs(t);
    DecodeExact(Tab(TrackArgs(t)), TrackFields(t));
  }

  lemma HistoryLayout(h: History)
    ensures var u := Known(h.user);
      Tab(HistoryArgs(h)) == Encoded([Dec(h.played), Dec(u.id), u.name, Dec(u.right)] + TrackList(h.track))
  {
    hide Tab, Decode, Encoded, Dec, TrackFields, TrackList, Known;
    var u := Known(h.user);
    HistoryLine(h);
    TrackListIs(h.track);
    DecodeExact(Tab(HistoryArgs(h)), HistoryFields(h));
    assert HistoryFields(h) == [Dec(h.played), Dec(u.id), u.name, Dec(u.right)] + TrackList(h.track);
  }

  lemma QueueLayout(q: Queue)
    ensures var u := Known(q.user);
      Tab(QueueArgs(q)) == Encoded([Dec(q.id), Dec(q.queued), Dec(u.id), u.name, Dec(u.right)] + TrackList(q.track))
  {
    hide Tab, Decode, Encoded, Dec, TrackFields, TrackList, Known;
    var u := Known(q.user);
    QueueLine(q);
    TrackListIs(q.track);
    DecodeExact(Tab(QueueArgs(q)), QueueFields(q));
    assert QueueFields(q) == [Dec(q.id), Dec(q.queued), Dec(u.id), u.name, Dec(u.right)] + TrackList(q.track);
  }

  /** An unknown format shows as a question mark, and no text of its own is escaped twice. */
  lemma ItemLooks(n: int, s: string, c: char)
    ensures Item(Bad) == "?" && Item(Num(n)) == Dec(n) && Item(Str(s)) == EscapeTabs(s) && Item(Raw(s)) == s
    ensures Item(Chr(c)) == EscapeTabs([c])
  {
    assert [c][1..] == "";
  }

  // ----- replies -----

  /** A code has three characters: blanks are put in front, and more are cut off. */
  lemma CodeLooks(a: char, b: char, c: char, rest: string)
    ensures Reply.Code3([a, b, c] + rest) == [a, b, c] && Reply.Code3([b, c]) == [' ', b, c]
    ensures Reply.Code3([c]) == [' ', ' ', c] && Reply.Code3("") == "   "
  {}

  /** A reply: a line with a dash for every text, and one with a blank and no text. */
  lemma {:induction false} ReplyLooks(code: string, text: string, texts: seq<string>)
    requires |code| == 3
    ensures Reply.Concat(Reply.ReplyLines(code, [])) == code + " " + "\n"
    ensures Reply.Concat(Reply.ReplyLines(code, [text] + texts)) ==
      code + "-" + text + "\n" + Reply.Concat(Reply.ReplyLines(code, texts))
  {
    var none, rest := Reply.ReplyLines(code, []), Reply.ReplyLines(code, texts);
    var all := Reply.ReplyLines(code, [text] + texts);
    assert none == [Reply.LineText(true, code, "")] && none[1..] == [];
    assert code + " " + "" + "\n" == code + " " + "\n";
    assert all[0] == Reply.LineText(false, code, text);
    assert all[1..] == rest;
  }
}
