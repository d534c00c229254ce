/** The records sent to clients, and how a client reads them back. */
module Records {
  import opened Text
  import opened Wire

  datatype User = User(id: int, name: string, right: int)
  datatype Client = Client(id: int, address: string, user: Option<User>)
  datatype Tag = Tag(id: int, name: string, desc: string)
  datatype Artist = Artist(id: int, artist: string)
  datatype Album = Album(id: int, album: string, year: int, artist: Artist)
  datatype Track = Track(id: int, albumnr: int, title: string, duration: int, artist: Artist, album: Album)
  datatype History = History(played: int, user: Option<User>, track: Track)
  datatype Queue = Queue(id: int, queued: int, user: Option<User>, track: Track)
  datatype SFilter = SFilter(id: int, name: string, filter: string)

  // ----- formatting -----

  /** A missing user is shown as this one. */
  const UNKNOWN := User(0, "UNKNOWN", 0)

  function Known(u: Option<User>): User { if u.Some? then u.value else UNKNOWN }

  function UserArgs(u: Option<User>): seq<Arg> { [Num(Known(u).id), Str(Known(u).name), Num(Known(u).right)] }
  function ClientArgs(c: Client): seq<Arg> { [Num(c.id), Str(c.address), Raw(Tab(UserArgs(c.user)))] }
  function TagArgs(t: Tag): seq<Arg> { [Num(t.id), Str(t.name), Str(t.desc)] }
  function ArtistArgs(a: Artist): seq<Arg> { [Num(a.id), Str(a.artist)] }
  function AlbumArgs(a: Album): seq<Arg> { [Num(a.id), Str(a.album), Num(a.year), Raw(Tab(ArtistArgs(a.artist)))] }
  function TrackArgs(t: Track): seq<Arg>
  {
    [Num(t.id), Num(t.albumnr), Str(t.title), Num(t.duration),
     Raw(Tab(ArtistArgs(t.artist))), Raw(Tab(AlbumArgs(t.album)))]
  }
  function HistoryArgs(h: History): seq<Arg>
  { [Num(h.played), Raw(Tab(UserArgs(h.user))), Raw(Tab(TrackArgs(h.track)))] }
  function QueueArgs(q: Queue): seq<Arg>
  { [Num(q.id), Num(q.queued), Raw(Tab(UserArgs(q.user))), Raw(Tab(TrackArgs(q.track)))] }
  function SFilterArgs(f: SFilter): seq<Arg> { [Num(f.id), Str(f.name), Str(f.filter)] }

  // ----- the flattened fields -----

  function UserFields(u: User): seq<string> { [Dec(u.id), u.name, Dec(u.right)] }
  function ClientFields(c: Client): seq<string> { [Dec(c.id), c.address] + UserFields(Known(c.user)) }
  function ArtistFields(a: Artist): seq<string> { [Dec(a.id), a.artist] }
  function AlbumFields(a: Album): seq<string> { [Dec(a.id), a.album, Dec(a.year)] + ArtistFields(a.artist) }
  function TrackFields(t: Track): seq<string>
  { [Dec(t.id), Dec(t.albumnr), t.title, Dec(t.duration)] + ArtistFields(t.artist) + AlbumFields(t.album) }
  function HistoryFields(h: History): seq<string>
  { [Dec(h.played)] + UserFields(Known(h.user)) + TrackFields(h.track) }
  function QueueFields(q: Queue): seq<string>
  { [Dec(q.id), Dec(q.queued)] + UserFields(Known(q.user)) + TrackFields(q.track) }

  // ----- a line decodes to the flattened fields -----

  /** FieldsOf one argument at a time. */
  lemma FieldsNext(args: seq<Arg>, a: Arg)
    requires forall i :: 0 <= i < |args| ==> Decodable(args[i])
    requires Decodable(a)
    ensures forall i :: 0 <= i < |args + [a]| ==> Decodable((args + [a])[i])
    ensures FieldsOf(args + [a]) == FieldsOf(args) + Decode(Item(a)).value
  {
    var all := args + [a];
    assert all[..|all| - 1] == args;
  }

  ghost predicate Carries(args: seq<Arg>, fs: seq<string>)
  {
    && (forall i :: 0 <= i < |args| ==> Decodable(args[i]))
    && FieldsOf(args) == fs
  }

  lemma CarriesNothing()
    ensures Carries([], [])
  {}

  lemma CarriesStr(args: seq<Arg>, fs: seq<string>, s: string)
    requires Carries(args, fs)
    ensures Carries(args + [Str(s)], fs + [s])
  {
    hide FieldsOf, Decode;
    DecodableArgs();
    FieldsNext(args, Str(s));
  }

  lemma CarriesNum(args: seq<Arg>, fs: seq<string>, n: int)
    requires Carries(args, fs)
    ensures Carries(args + [Num(n)], fs + [Dec(n)])
  {
    hide FieldsOf, Decode;
    DecodableArgs();
    FieldsNext(args, Num(n));
  }

  lemma CarriesRecord(args: seq<Arg>, fs: seq<string>, line: string, sub: seq<string>)
    requires Carries(args, fs) && Decode(line) == Some(sub)
    ensures Carries(args + [Raw(line)], fs + sub)
  {
    hide FieldsOf, Decode;
    FieldsNext(args, Raw(line));
  }

  /** Every format starts with a number. */
  lemma NumFirst(args: seq<Arg>, fs: seq<string>)
    requires Carries(args, fs) && args != [] && args[0].Num?
    ensures Decode(Tab(args)) == Some(fs)
  {
    hide FieldsOf, Decode, Tab;
    TabDecodes(args);
  }

  lemma UserLine(u: Option<User>)
    ensures Decode(Tab(UserArgs(u))) == Some(UserFields(Known(u)))
  {
    hide Carries, Tab, Decode, Dec, Known;
    var k := Known(u);
    CarriesNothing();
    CarriesNum([], [], k.id);
    CarriesStr([] + [Num(k.id)], [] + [Dec(k.id)], k.name);
    CarriesNum([] + [Num(k.id)] + [Str(k.name)], [] + [Dec(k.id)] + [k.name], k.right);
    assert [] + [Num(k.id)] + [Str(k.name)] + [Num(k.right)] == UserArgs(u);
    assert [] + [Dec(k.id)] + [k.name] + [Dec(k.right)] == UserFields(k);
    NumFirst(UserArgs(u), UserFields(k));
  }

  lemma ClientLine(c: Client)
    ensures Decode(Tab(ClientArgs(c))) == Some(ClientFields(c))
  {
    hide Carries, Tab, Decode, Dec, UserArgs, UserFields;
    var (sub, fs) := (Tab(UserArgs(c.user)), UserFields(Known(c.user)));
    UserLine(c.user);
    CarriesNothing();
    CarriesNum([], [], c.id);
    CarriesStr([] + [Num(c.id)], [] + [Dec(c.id)], c.address);
    CarriesRecord([] + [Num(c.id)] + [Str(c.address)], [] + [Dec(c.id)] + [c.address], sub, fs);
    assert [] + [Num(c.id)] + [Str(c.address)] + [Raw(sub)] == ClientArgs(c);
    assert [] + [Dec(c.id)] + [c.address] + fs == ClientFields(c);
    NumFirst(ClientArgs(c), ClientFields(c));
  }

  /** A number and two strings: tags and saved filters. */
  lemma NamedLine(n: int, s: string, t: string)
    ensures Decode(Tab([Num(n), Str(s), Str(t)])) == Some([Dec(n), s, t])
  {
    hide Carries, Tab, Decode, Dec;
    CarriesNothing();
    CarriesNum([], [], n);
    CarriesStr([] + [Num(n)], [] + [Dec(n)], s);
    CarriesStr([] + [Num(n)] + [Str(s)], [] + [Dec(n)] + [s], t);
    assert [] + [Num(n)] + [Str(s)] + [Str(t)] == [Num(n), Str(s), Str(t)];
    assert [] + [Dec(n)] + [s] + [t] == [Dec(n), s, t];
    NumFirst([Num(n), Str(s), Str(t)], [Dec(n), s, t]);
  }

  lemma ArtistLine(a: Artist)
    ensures Decode(Tab(ArtistArgs(a))) == Some(ArtistFields(a))
  {
    hide Carries, Tab, Decode, Dec;
    CarriesNothing();
    CarriesNum([], [], a.id);
    CarriesStr([] + [Num(a.id)], [] + [Dec(a.id)], a.artist);
    assert [] + [Num(a.id)] + [Str(a.artist)] == ArtistArgs(a);
    assert [] + [Dec(a.id)] + [a.artist] == ArtistFields(a);
    NumFirst(ArtistArgs(a), ArtistFields(a));
  }

  lemma AlbumLine(a: Album)
    ensures Decode(Tab(AlbumArgs(a))) == Some(AlbumFields(a))
  {
    hide Carries, Tab, Decode, Dec, ArtistArgs, ArtistFields;
    var (sub, fs) := (Tab(ArtistArgs(a.artist)), ArtistFields(a.artist));
    ArtistLine(a.artist);
    CarriesNothing();
    CarriesNum([], [], a.id);
    CarriesStr([] + [Num(a.id)], [] + [Dec(a.id)], a.album);
    var (args, head) := ([] + [Num(a.id)] + [Str(a.album)], [] + [Dec(a.id)] + [a.album]);
    CarriesNum(args, head, a.year);
    CarriesRecord(args + [Num(a.year)], head + [Dec(a.year)], sub, fs);
    assert args + [Num(a.year)] + [Raw(sub)] == AlbumArgs(a);
    assert head + [Dec(a.year)] + fs == AlbumFields(a);
    NumFirst(AlbumArgs(a), AlbumFields(a));
  }

  lemma TrackLine(t: Track)
    ensures Decode(Tab(TrackArgs(t))) == Some(TrackFields(t))
  {
    hide Carries, Tab, Decode, Dec, ArtistArgs, ArtistFields, AlbumArgs, AlbumFields;
    var (sub1, fs1) := (Tab(ArtistArgs(t.artist)), ArtistFields(t.artist));
    var (sub2, fs2) := (Tab(AlbumArgs(t.album)), AlbumFields(t.album));
    ArtistLine(t.artist);
    AlbumLine(t.album);
    CarriesNothing();
    CarriesNum([], [], t.id);
    CarriesNum([] + [Num(t.id)], [] + [Dec(t.id)], t.albumnr);
    var (args, head) := ([] + [Num(t.id)] + [Num(t.albumnr)], [] + [Dec(t.id)] + [Dec(t.albumnr)]);
    CarriesStr(args, head, t.title);
    CarriesNum(args + [Str(t.title)], head + [t.title], t.duration);
    var (args', head') := (args + [Str(t.title)] + [Num(t.duration)], head + [t.title] + [Dec(t.duration)]);
    CarriesRecord(args', head', sub1, fs1);
    CarriesRecord(args' + [Raw(sub1)], head' + fs1, sub2, fs2);
    assert args' + [Raw(sub1)] + [Raw(sub2)] == TrackArgs(t);
    assert head' + fs1 + fs2 == TrackFields(t);
    NumFirst(TrackArgs(t), TrackFields(t));
  }

  lemma HistoryLine(h: History)
    ensures Decode(Tab(HistoryArgs(h))) == Some(HistoryFields(h))
  {
    hide Carries, Tab, Decode, Dec, UserArgs, UserFields, TrackArgs, TrackFields;
    var (sub1, fs1) := (Tab(UserArgs(h.user)), UserFields(Known(h.user)));
    var (sub2, fs2) := (Tab(TrackArgs(h.track)), TrackFields(h.track));
    UserLine(h.user);
    TrackLine(h.track);
    CarriesNothing();
    CarriesNum([], [], h.played);
    CarriesRecord([] + [Num(h.played)], [] + [Dec(h.played)], sub1, fs1);
    CarriesRecord([] + [Num(h.played)] + [Raw(sub1)], [] + [Dec(h.played)] + fs1, sub2, fs2);
    assert [] + [Num(h.played)] + [Raw(sub1)] + [Raw(sub2)] == HistoryArgs(h);
    assert [] + [Dec(h.played)] + fs1 + fs2 == HistoryFields(h);
    NumFirst(HistoryArgs(h), HistoryFields(h));
  }

  lemma QueueLine(q: Queue)
    ensures Decode(Tab(QueueArgs(q))) == Some(QueueFields(q))
  {
    hide Carries, Tab, Decode, Dec, UserArgs, UserFields, TrackArgs, TrackFields;
    var (sub1, fs1) := (Tab(UserArgs(q.user)), UserFields(Known(q.user)));
    var (sub2, fs2) := (Tab(TrackArgs(q.track)), TrackFields(q.track));
    UserLine(q.user);
    TrackLine(q.track);
    CarriesNothing();
    CarriesNum([], [], q.id);
    CarriesNum([] + [Num(q.id)], [] + [Dec(q.id)], q.queued);
    var (args, head) := ([] + [Num(q.id)] + [Num(q.queued)], [] + [Dec(q.id)] + [Dec(q.queued)]);
    CarriesRecord(args, head, sub1, fs1);
    CarriesRecord(args + [Raw(sub1)], head + fs1, sub2, fs2);
    assert args + [Raw(sub1)] + [Raw(sub2)] == QueueArgs(q);
    assert head + fs1 + fs2 == QueueFields(q);
    NumFirst(QueueArgs(q), QueueFields(q));
  }

  // ----- from fields back to records -----

  /** The value of a number as "%d" writes it; anything is read, numbers are read right. */
  function DecValue(s: string): int
  {
    if s != "" && s[0] == '-' && AllDigits(s[1..]) then var n: int := DigitsValue(s[1..]); -n
    else if AllDigits(s) then DigitsValue(s)
    else 0
  }

  lemma DecRoundTrip(n: int)
    ensures DecValue(Dec(n)) == n
  {
    hide Digits, DigitsValue;
    if n < 0 {
      DigitsRoundTrip(-n);
      assert ("-" + Digits(-n))[1..] == Digits(-n);
    } else {
      DigitsRoundTrip(n);
      assert IsDigit(Digits(n)[0]);
    }
  }

  function ReadUser(fs: seq<string>): Option<User>
  { if |fs| != 3 then None else Some(User(DecValue(fs[0]), fs[1], DecValue(fs[2]))) }

  function ReadClient(fs: seq<string>): Option<Client>
  { if |fs| != 5 then None else Some(Client(DecValue(fs[0]), fs[1], ReadUser(fs[2..]))) }

  function ReadTag(fs: seq<string>): Option<Tag>
  { if |fs| != 3 then None else Some(Tag(DecValue(fs[0]), fs[1], fs[2])) }

  function ReadArtist(fs: seq<string>): Option<Artist>
  { if |fs| != 2 then None else Some(Artist(DecValue(fs[0]), fs[1])) }

  function ReadAlbum(fs: seq<string>): Option<Album>
  {
    if |fs| != 5 then None
    else Some(Album(DecValue(fs[0]), fs[1], DecValue(fs[2]), ReadArtist(fs[3..]).value))
  }

  function ReadTrack(fs: seq<string>): Option<Track>
  {
    if |fs| != 11 then None
    else Some(Track(DecValue(fs[0]), DecValue(fs[1]), fs[2], DecValue(fs[3]),
                    ReadArtist(fs[4..6]).value, ReadAlbum(fs[6..]).value))
  }

  function ReadHistory(fs: seq<string>): Option<History>
  {
    if |fs| != 15 then None
    else Some(History(DecValue(fs[0]), ReadUser(fs[1..4]), ReadTrack(fs[4..]).value))
  }

  function ReadQueue(fs: seq<string>): Option<Queue>
  {
    if |fs| != 16 then None
    else Some(Queue(DecValue(fs[0]), DecValue(fs[1]), ReadUser(fs[2..5]), ReadTrack(fs[5..]).value))
  }

  function ReadSFilter(fs: seq<string>): Option<SFilter>
  { if |fs| != 3 then None else Some(SFilter(DecValue(fs[0]), fs[1], fs[2])) }

  /** What a client makes of a line, given how to read the fields. */
  function Receive<T>(line: string, read: seq<string> -> Option<T>): Option<T>
  { if Decode(line) == None then None else read(Decode(line).value) }

  lemma UserBack(u: User)
    ensures |UserFields(u)| == 3 && ReadUser(UserFields(u)) == Some(u)
  {
    hide Dec, DecValue;
    DecRoundTrip(u.id);
    DecRoundTrip(u.right);
  }

  lemma ArtistBack(a: Artist)
    ensures |ArtistFields(a)| == 2 && ReadArtist(ArtistFields(a)) == Some(a)
  {
    hide Dec, DecValue;
    DecRoundTrip(a.id);
  }

  lemma AlbumBack(a: Album)
    ensures |AlbumFields(a)| == 5 && ReadAlbum(AlbumFields(a)) == Some(a)
  {
    hide Dec, DecValue, ArtistFields, ReadArtist;
    ArtistBack(a.artist);
    DecRoundTrip(a.id);
    DecRoundTrip(a.year);
    assert AlbumFields(a)[3..] == ArtistFields(a.artist);
  }

  lemma TrackBack(t: Track)
    ensures |TrackFields(t)| == 11 && ReadTrack(TrackFields(t)) == Some(t)
  {
    hide Dec, DecValue, ArtistFields, ReadArtist, AlbumFields, ReadAlbum;
    ArtistBack(t.artist);
    AlbumBack(t.album);
    DecRoundTrip(t.id);
    DecRoundTrip(t.albumnr);
    DecRoundTrip(t.duration);
    var fs := TrackFields(t);
    assert fs[4..6] == ArtistFields(t.artist) && fs[6..] == AlbumFields(t.album);
  }

  lemma UserRoundTrip(u: Option<User>)
    ensures Receive(Tab(UserArgs(u)), ReadUser) == Some(Known(u))
  {
    hide Decode, Tab, UserFields, ReadUser, Known;
    UserLine(u);
    UserBack(Known(u));
  }

  lemma ClientRoundTrip(c: Client)
    ensures Receive(Tab(ClientArgs(c)), ReadClient) == Some(c.(user := Some(Known(c.user))))
  {
    hide Decode, Tab, UserFields, ReadUser, Known, Dec, DecValue;
    ClientLine(c);
    UserBack(Known(c.user));
    DecRoundTrip(c.id);
    assert ClientFields(c)[2..] == UserFields(Known(c.user));
  }

  lemma TagRoundTrip(t: Tag)
    ensures Receive(Tab(TagArgs(t)), ReadTag) == Some(t)
  {
    hide Decode, Tab, Dec, DecValue;
    NamedLine(t.id, t.name, t.desc);
    DecRoundTrip(t.id);
  }

  lemma SFilterRoundTrip(f: SFilter)
    ensures Receive(Tab(SFilterArgs(f)), ReadSFilter) == Some(f)
  {
    hide Decode, Tab, Dec, DecValue;
    NamedLine(f.id, f.name, f.filter);
    DecRoundTrip(f.id);
  }

  lemma ArtistRoundTrip(a: Artist)
    ensures Receive(Tab(ArtistArgs(a)), ReadArtist) == Some(a)
  {
    hide Decode, Tab, ArtistFields, ReadArtist;
    ArtistLine(a);
    ArtistBack(a);
  }

  lemma AlbumRoundTrip(a: Album)
    ensures Receive(Tab(AlbumArgs(a)), ReadAlbum) == Some(a)
  {
    hide Decode, Tab, AlbumFields, ReadAlbum;
    AlbumLine(a);
    AlbumBack(a);
  }

  lemma TrackRoundTrip(t: Track)
    ensures Receive(Tab(TrackArgs(t)), ReadTrack) == Some(t)
  {
    hide Decode, Tab, TrackFields, ReadTrack;
    TrackLine(t);
    TrackBack(t);
  }

  lemma HistoryRoundTrip(h: History)
    ensures Receive(Tab(HistoryArgs(h)), ReadHistory) == Some(h.(user := Some(Known(h.user))))
  {
    hide Decode, Tab, TrackFields, ReadTrack, UserFields, ReadUser, Known, Dec, DecValue;
    HistoryLine(h);
    UserBack(Known(h.user));
    TrackBack(h.track);
    DecRoundTrip(h.played);
    var fs := HistoryFields(h);
    assert fs[1..4] == UserFields(Known(h.user)) && fs[4..] == TrackFields(h.track);
  }

  lemma QueueRoundTrip(q: Queue)
    ensures Receive(Tab(QueueArgs(q)), ReadQueue) == Some(q.(user := Some(Known(q.user))))
  {
    hide Decode, Tab, TrackFields, ReadTrack, UserFields, ReadUser, Known, Dec, DecValue;
    QueueLine(q);
    UserBack(Known(q.user));
    TrackBack(q.track);
    DecRoundTrip(q.id);
    DecRoundTrip(q.queued);
    var fs := QueueFields(q);
    assert fs[2..5] == UserFields(Known(q.user)) && fs[5..] == TrackFields(q.track);
  }

  /** Different queue entries have different lines, a missing user aside. */
  lemma QueueInjective(p: Queue, q: Queue)
    requires p.user.Some? && q.user.Some? && Tab(QueueArgs(p)) == Tab(QueueArgs(q))
    ensures p == q
  {
    hide Decode, Tab, ReadQueue, QueueArgs;
    QueueRoundTrip(p);
    QueueRoundTrip(q);
  }
}
