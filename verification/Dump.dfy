/** Formatting records in the shared buffer, and sending the play queue to a client. */
module Dump {
  import opened Text
  import opened Wire
  import opened TabBuffer
  import opened Records
  import opened Reply

  // ----- a character that no string of a record holds is not in its line -----

  predicate UserHas(u: User, c: char) { c in u.name }
  predicate ArtistHas(a: Artist, c: char) { c in a.artist }
  predicate AlbumHas(a: Album, c: char) { c in a.album || ArtistHas(a.artist, c) }
  predicate TrackHas(t: Track, c: char) { c in t.title || ArtistHas(t.artist, c) || AlbumHas(t.album, c) }
  predicate QueueHas(q: Queue, c: char) { UserHas(Known(q.user), c) || TrackHas(q.track, c) }

  // ----- records, whether they fit or not -----

  function UserRecord(u: Option<User>): Record { Recorded(UserArgs(u)) }

  function ArtistRecord(a: Artist): Record { Recorded(ArtistArgs(a)) }

  function AlbumRecord(a: Album): Record
  {
    match ArtistRecord(a.artist)
    case Wild => Wild
    case Text(sub) => Recorded([Num(a.id), Str(a.album), Num(a.year), Raw(sub)])
  }

  function TrackRecord(t: Track): Record
  {
    match (ArtistRecord(t.artist), AlbumRecord(t.album))
    case (Text(sub1), Text(sub2)) =>
      Recorded([Num(t.id), Num(t.albumnr), Str(t.title), Num(t.duration), Raw(sub1), Raw(sub2)])
    case _ => Wild
  }

  function QueueRecord(q: Queue): Record
  {
    match (UserRecord(q.user), TrackRecord(q.track))
    case (Text(sub1), Text(sub2)) => Recorded([Num(q.id), Num(q.queued), Raw(sub1), Raw(sub2)])
    case _ => Wild
  }

  // ----- a nested record is no longer than the whole, so what fits is formatted right -----

  lemma RawFits(args: seq<Arg>, i: nat)
    requires i < |args| && args[i].Raw?
    ensures |args[i].s| <= |Tab(args)|
  {
    TabNext(args, i);
    TabGrows(args, i + 1);
  }

  lemma AlbumFits(a: Album)
    requires |Tab(AlbumArgs(a))| < BLEN
    ensures AlbumRecord(a) == Text(Tab(AlbumArgs(a)))
  {
    hide Tab, Recorded, ArtistArgs;
    RawFits(AlbumArgs(a), 3);
    RecordedExact(ArtistArgs(a.artist));
    RecordedExact(AlbumArgs(a));
  }

  lemma TrackFits(t: Track)
    requires |Tab(TrackArgs(t))| < BLEN
    ensures TrackRecord(t) == Text(Tab(TrackArgs(t)))
  {
    hide Tab, Recorded, ArtistArgs, AlbumArgs, AlbumRecord;
    RawFits(TrackArgs(t), 4);
    RawFits(TrackArgs(t), 5);
    RecordedExact(ArtistArgs(t.artist));
    AlbumFits(t.album);
    RecordedExact(TrackArgs(t));
  }

  lemma QueueFits(q: Queue)
    requires |Tab(QueueArgs(q))| < BLEN
    ensures QueueRecord(q) == Text(Tab(QueueArgs(q)))
  {
    hide Tab, Recorded, UserArgs, TrackArgs, TrackRecord;
    RawFits(QueueArgs(q), 2);
    RawFits(QueueArgs(q), 3);
    RecordedExact(UserArgs(q.user));
    TrackFits(q.track);
    RecordedExact(QueueArgs(q));
  }

  // ----- a character that no string of a record holds is not in what was formatted -----

  predicate Lacks(r: Record, c: char) { r.Text? ==> c !in r.s }

  lemma RecordedLacks(args: seq<Arg>, c: char)
    requires Foreign(c) && forall i :: 0 <= i < |args| ==> !ArgHas(args[i], c)
    ensures Lacks(Recorded(args), c)
  {
    hide Build, ArgHas;
    BuildKeeps(args, c);
  }

  lemma AlbumLacks(a: Album, c: char)
    requires Foreign(c) && !AlbumHas(a, c)
    ensures Lacks(ArtistRecord(a.artist), c) && Lacks(AlbumRecord(a), c)
  {
    hide Recorded;
    RecordedLacks(ArtistArgs(a.artist), c);
    var r := ArtistRecord(a.artist);
    if r.Text? { RecordedLacks([Num(a.id), Str(a.album), Num(a.year), Raw(r.s)], c); }
  }

  lemma TrackLacks(t: Track, c: char)
    requires Foreign(c) && !TrackHas(t, c)
    ensures Lacks(ArtistRecord(t.artist), c) && Lacks(AlbumRecord(t.album), c) && Lacks(TrackRecord(t), c)
  {
    hide Recorded, AlbumRecord;
    RecordedLacks(ArtistArgs(t.artist), c);
    AlbumLacks(t.album, c);
    var r1, r2 := ArtistRecord(t.artist), AlbumRecord(t.album);
    if r1.Text? && r2.Text? {
      RecordedLacks([Num(t.id), Num(t.albumnr), Str(t.title), Num(t.duration), Raw(r1.s), Raw(r2.s)], c);
    }
  }

  lemma QueueLacks(q: Queue, c: char)
    requires Foreign(c) && !QueueHas(q, c)
    ensures Lacks(UserRecord(q.user), c) && Lacks(TrackRecord(q.track), c) && Lacks(QueueRecord(q), c)
  {
    hide Recorded, TrackRecord, TrackHas;
    RecordedLacks(UserArgs(q.user), c);
    TrackLacks(q.track, c);
    var r1, r2 := UserRecord(q.user), TrackRecord(q.track);
    if r1.Text? && r2.Text? { RecordedLacks([Num(q.id), Num(q.queued), Raw(r1.s), Raw(r2.s)], c); }
  }

  // ----- the formatters: what fits is read back by a client -----

  method MkUser(buf: array<char>, u: Option<User>) returns (r: Record)
    requires buf.Length == BLEN && !UserHas(Known(u), '\0')
    modifies buf
    ensures r == UserRecord(u)
    ensures |Tab(UserArgs(u))| < BLEN ==> r.Text? && Receive(r.s, ReadUser) == Some(Known(u))
  {
    hide Tab, Decode, ReadUser, Recorded;
    if u.None? {
      r := MkVTab(buf, [Num(0), Str("UNKNOWN"), Num(0)]);
    } else {
      r := MkVTab(buf, [Num(u.value.id), Str(u.value.name), Num(u.value.right)]);
    }
    RecordedExact(UserArgs(u));
    UserRoundTrip(u);
  }

  method MkArtist(buf: array<char>, a: Artist) returns (r: Record)
    requires buf.Length == BLEN && !ArtistHas(a, '\0')
    modifies buf
    ensures r == ArtistRecord(a)
    ensures |Tab(ArtistArgs(a))| < BLEN ==> r.Text? && Receive(r.s, ReadArtist) == Some(a)
  {
    hide Tab, Decode, ReadArtist, Recorded;
    r := MkVTab(buf, [Num(a.id), Str(a.artist)]);
    RecordedExact(ArtistArgs(a));
    ArtistRoundTrip(a);
  }

  method MkAlbum(buf: array<char>, a: Album) returns (r: Record)
    requires buf.Length == BLEN && !AlbumHas(a, '\0')
    modifies buf
    ensures r == AlbumRecord(a)
    ensures |Tab(AlbumArgs(a))| < BLEN ==> r.Text? && Receive(r.s, ReadAlbum) == Some(a)
  {
    hide Tab, Decode, ReadAlbum, Recorded, ArtistArgs;
    AlbumLacks(a, '\0');
    var sub := MkArtist(buf, a.artist);
    if sub.Wild? {
      r := Wild;
    } else {
      r := MkVTab(buf, [Num(a.id), Str(a.album), Num(a.year), Raw(sub.s)]);
    }
    if |Tab(AlbumArgs(a))| < BLEN { AlbumFits(a); }
    AlbumRoundTrip(a);
  }

  method MkTrack(buf: array<char>, t: Track) returns (r: Record)
    requires buf.Length == BLEN && !TrackHas(t, '\0')
    modifies buf
    ensures r == TrackRecord(t)
    ensures |Tab(TrackArgs(t))| < BLEN ==> r.Text? && Receive(r.s, ReadTrack) == Some(t)
  {
    hide Tab, Decode, ReadTrack, Recorded, ArtistArgs, AlbumArgs, AlbumRecord;
    TrackLacks(t, '\0');
    if |Tab(TrackArgs(t))| < BLEN { TrackFits(t); }
    TrackRoundTrip(t);
    var sub1 := MkArtist(buf, t.artist);
    if sub1.Wild? { return Wild; }
    var sub2 := MkAlbum(buf, t.album);
    if sub2.Wild? { return Wild; }
    r := MkVTab(buf, [Num(t.id), Num(t.albumnr), Str(t.title), Num(t.duration), Raw(sub1.s), Raw(sub2.s)]);
  }

  method MkQueue(buf: array<char>, q: Queue) returns (r: Record)
    requires buf.Length == BLEN && !QueueHas(q, '\0')
    modifies buf
    ensures r == QueueRecord(q)
    ensures |Tab(QueueArgs(q))| < BLEN ==> r.Text? && Receive(r.s, ReadQueue) == Some(q.(user := Some(Known(q.user))))
  {
    hide Tab, Decode, ReadQueue, Recorded, UserArgs, TrackArgs, TrackRecord, Known;
    QueueLacks(q, '\0');
    if |Tab(QueueArgs(q))| < BLEN { QueueFits(q); }
    QueueRoundTrip(q);
    var sub1 := MkUser(buf, q.user);
    if sub1.Wild? { return Wild; }
    var sub2 := MkTrack(buf, q.track);
    if sub2.Wild? { return Wild; }
    r := MkVTab(buf, [Num(q.id), Num(q.queued), Raw(sub1.s), Raw(sub2.s)]);
  }

  // ----- sending a list -----

  function QueueRecords(it: seq<Queue>): (r: seq<Record>)
    ensures |r| == |it| && forall i :: 0 <= i < |it| ==> r[i] == QueueRecord(it[i])
  { seq(|it|, i requires 0 <= i < |it| => QueueRecord(it[i])) }

  function TextOf(r: Record): string { if r.Text? then r.s else "" }

  function Texts(records: seq<Record>): (r: seq<string>)
    ensures |r| == |records| && forall i :: 0 <= i < |records| ==> r[i] == TextOf(records[i])
  { seq(|records|, i requires 0 <= i < |records| => TextOf(records[i])) }

  /** How it ended: all sent, given up because of a refused line or a failed send, or outside of a buffer. */
  datatype Outcome = Done | Failed | Broken

  /** The record was formatted inside its buffer, its line is not too long, and sending succeeds. */
  predicate Sent(records: seq<Record>, sends: int -> bool, i: nat)
  { sends(i) && (i < |records| ==> records[i].Text? && |records[i].s| < BUFLENLINE - 5) }

  /** Formatting a record or its line goes outside of a buffer. */
  predicate Breaks(r: Record) { r.Wild? || |r.s| == BUFLENLINE - 5 }

  /** Sends one line; sends(i) tells whether the i-th send of this reply succeeds. */
  method SendLine(last: bool, code: string, text: string, sends: int -> bool, sent: seq<string>)
    returns (sent': seq<string>, r: Outcome)
    requires '\0' !in code && '\0' !in text
    ensures r == Done <==> |text| < BUFLENLINE - 5 && sends(|sent|)
    ensures r == Broken <==> |text| == BUFLENLINE - 5
    ensures sent' == if r == Done then sent + [LineText(last, code, text)] else sent
  {
    var line := FmtLine(last, code, text);
    sent', r := sent, Failed;
    match line
    case Refused =>
    case Overran => r := Broken;
    case Formatted(l) => if sends(|sent|) { sent', r := sent + [l], Done; }
  }

  /** The lines of a reply were sent in order up to the first that could not be, all of them if done. */
  ghost predicate SentAsFar(code: string, records: seq<Record>, sends: int -> bool, sent: seq<string>, done: bool)
  {
    && sent <= ReplyLines(code, Texts(records))
    && (done <==> sent == ReplyLines(code, Texts(records)))
    && (done <==> forall i: nat :: i <= |records| ==> Sent(records, sends, i))
    && (!done ==> |sent| <= |records| && !Sent(records, sends, |sent|))
  }

  /** The first k lines were sent. */
  ghost predicate Underway(code: string, records: seq<Record>, sends: int -> bool, sent: seq<string>, k: nat)
  {
    && k <= |records| + 1 && sent == ReplyLines(code, Texts(records))[..k]
    && forall i: nat :: i < k ==> Sent(records, sends, i)
  }

  lemma BeginReply(code: string, records: seq<Record>, sends: int -> bool)
    ensures Underway(code, records, sends, [], 0)
  {}

  lemma AnotherLine(code: string, records: seq<Record>, sends: int -> bool, sent: seq<string>, k: nat)
    requires Underway(code, records, sends, sent, k) && k <= |records| && Sent(records, sends, k)
    ensures |sent| == k && Underway(code, records, sends, sent + [ReplyLines(code, Texts(records))[k]], k + 1)
  {
    hide ReplyLines, Sent, Texts;
    var lines := ReplyLines(code, Texts(records));
    assert lines[..k + 1] == sent + [lines[k]];
  }

  lemma EndReply(code: string, records: seq<Record>, sends: int -> bool, sent: seq<string>, k: nat)
    requires Underway(code, records, sends, sent, k) && (k <= |records| ==> !Sent(records, sends, k))
    ensures |sent| == k && SentAsFar(code, records, sends, sent, k == |records| + 1)
  {
    hide ReplyLines, Sent, Texts;
  }

  lemma HowFar(code: string, records: seq<Record>, sends: int -> bool, sent: seq<string>, k: nat)
    requires Underway(code, records, sends, sent, k)
    ensures |sent| == k
  {}

  /** The queue as a reply of one line for each entry. */
  method DumpQueues(buf: array<char>, code: string, it: seq<Queue>, sends: int -> bool)
    returns (sent: seq<string>, r: Outcome)
    requires buf.Length == BLEN && '\0' !in code && forall i :: 0 <= i < |it| ==> !QueueHas(it[i], '\0')
    modifies buf
    ensures SentAsFar(code, QueueRecords(it), sends, sent, r == Done)
    ensures r == Broken <==> |sent| < |it| && Breaks(QueueRecord(it[|sent|]))
  {
    hide Tab, LineText, QueueHas, QueueArgs, QueueRecord, ReplyLines, Sent, Underway, SentAsFar;
    ghost var records := QueueRecords(it);
    sent, r := [], Done;
    BeginReply(code, records, sends);
    for k := 0 to |it|
      invariant r == Done && Underway(code, records, sends, sent, k)
    {
      var record := MkQueue(buf, it[k]);
      QueueLacks(it[k], '\0');
      HowFar(code, records, sends, sent, k);
      SentIs(records, sends, k);
      if record.Wild? {
        EndReply(code, records, sends, sent, k);
        return sent, Broken;
      }
      ghost var before := sent;
      sent, r := SendLine(false, code, record.s, sends, sent);
      if r != Done {
        EndReply(code, records, sends, sent, k);
        return;
      }
      ReplyAt(code, Texts(records), k);
      AnotherLine(code, records, sends, before, k);
    }
    HowFar(code, records, sends, sent, |it|);
    ghost var before := sent;
    sent, r := SendLine(true, code, "", sends, sent);
    SentIs(records, sends, |it|);
    ReplyAt(code, Texts(records), |it|);
    if r == Done { AnotherLine(code, records, sends, before, |it|); }
    EndReply(code, records, sends, sent, if r == Done then |it| + 1 else |it|);
  }

  lemma SentIs(records: seq<Record>, sends: int -> bool, i: nat)
    ensures Sent(records, sends, i) <==>
      sends(i) && (i < |records| ==> records[i].Text? && |records[i].s| < BUFLENLINE - 5)
  {}

  /** What the client makes of the reply. */
  function ReadQueues(texts: seq<string>): (r: seq<Option<Queue>>)
    ensures |r| == |texts| && forall i :: 0 <= i < |texts| ==> r[i] == Receive(texts[i], ReadQueue)
  { seq(|texts|, i requires 0 <= i < |texts| => Receive(texts[i], ReadQueue)) }

  /** The entry with the user that a client is shown. */
  function Shown(q: Queue): Queue { q.(user := Some(Known(q.user))) }

  /**
   For entries without line feeds a completely sent reply has one text for each entry, in order, and every entry
   that fits its buffer is read back; an incomplete reply gives nothing.
   */
  lemma QueuesArrive(code: string, it: seq<Queue>, sends: int -> bool, sent: seq<string>, done: bool, rest: string)
    requires |code| == 3 && '\n' !in code && forall i :: 0 <= i < |it| ==> !QueueHas(it[i], '\n')
    requires SentAsFar(code, QueueRecords(it), sends, sent, done)
    ensures done ==>
      var a := ReadReply(code, Concat(sent) + rest);
      && a.Some? && a.value.rest == rest && |a.value.texts| == |it|
      && forall i :: 0 <= i < |it| && |Tab(QueueArgs(it[i]))| < BLEN ==>
           ReadQueues(a.value.texts)[i] == Some(Shown(it[i]))
    ensures !done ==> ReadReply(code, Concat(sent)) == None
  {
    hide Tab, LineText, QueueHas, QueueArgs, QueueRecord, ReadReply, Concat, Receive, ReadQueue, ReplyLines, Sent;
    var texts := Texts(QueueRecords(it));
    forall i | 0 <= i < |texts|
      ensures '\n' !in texts[i]
      ensures |Tab(QueueArgs(it[i]))| < BLEN ==> Receive(texts[i], ReadQueue) == Some(Shown(it[i]))
    {
      QueueLacks(it[i], '\n');
      QueueRoundTrip(it[i]);
      if |Tab(QueueArgs(it[i]))| < BLEN { QueueFits(it[i]); }
    }
    if done {
      ReplyExact(code, texts, rest);
    } else {
      assert sent == ReplyLines(code, texts)[..|sent|];
      CutOff(code, texts, |sent|);
    }
  }
}
