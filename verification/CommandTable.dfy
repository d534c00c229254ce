/** The table of commands. */
module CommandTable {
  import opened Text
  import opened Session

  /** A command: its name, reply code, the right it needs and the kinds of its arguments. */
  datatype Row = Row(name: string, code: string, perm: int, kinds: seq<string>)

  // ----- the commands for clients that are logged in -----

  const CLIENT_ROWS: seq<Row> := [
    Row("clientlist", "230", USER, []),
    Row("clientclose", "232", MASTER, ["id"]),
    Row("clientcloseuser", "231", MASTER, ["id"]),
    Row("userlist", "235", USER, []),
    Row("userget", "233", USER, ["id"]),
    Row("user2id", "234", USER, ["name"]),
    Row("useradd", "238", MASTER, ["name"]),
    Row("usersetpass", "236", MASTER, ["id", "pass"]),
    Row("usersetright", "237", MASTER, ["id", "right"]),
    Row("userdel", "239", MASTER, ["id"])
  ]

  const PLAYER_ROWS: seq<Row> := [
    Row("play", "240", USER, []),
    Row("stop", "241", USER, []),
    Row("next", "240", USER, []),
    Row("prev", "240", USER, []),
    Row("pause", "242", USER, []),
    Row("elapsed", "249", GUEST, []),
    Row("jump", "248", USER, ["sec"]),
    Row("status", "243", GUEST, []),
    Row("curtrack", "248", GUEST, [])
  ]

  const OPTION_ROWS: seq<Row> := [
    Row("gap", "244", GUEST, []),
    Row("gapset", "245", USER, ["sec"]),
    Row("cut", "244", GUEST, []),
    Row("cutset", "245", USER, ["bool"]),
    Row("replaygain", "244", GUEST, []),
    Row("replaygainset", "245", USER, ["replaygain"]),
    Row("rgpreamp", "244", GUEST, []),
    Row("rgpreampset", "245", USER, ["decibel"]),
    Row("random", "246", GUEST, []),
    Row("randomset", "247", USER, ["bool"]),
    Row("sleep", "215", GUEST, []),
    Row("sleepset", "216", USER, ["sec"])
  ]

  const TRACK_ROWS: seq<Row> := [
    Row("trackcount", "214", GUEST, []),
    Row("tracksearch", "211", GUEST, ["string"]),
    Row("tracksearchf", "211", GUEST, ["filter"]),
    Row("tracksalbum", "212", GUEST, ["id"]),
    Row("tracksartist", "213", GUEST, ["id"]),
    Row("trackget", "210", GUEST, ["id"]),
    Row("track2id", "214", GUEST, ["id", "id"]),
    Row("tracksetname", "283", ADMIN, ["id", "string"]),
    Row("tracksetartist", "284", ADMIN, ["id", "id"])
  ]

  const QUEUE_ROWS: seq<Row> := [
    Row("filter", "250", GUEST, []),
    Row("filterset", "251", USER, ["filter"]),
    Row("filterstat", "253", GUEST, []),
    Row("filtertop", "252", GUEST, ["num"]),
    Row("history", "260", GUEST, ["num"]),
    Row("historytrack", "260", GUEST, ["id", "num"]),
    Row("queuelist", "260", GUEST, []),
    Row("queueget", "264", USER, ["id"]),
    Row("queueadd", "260", USER, ["id"]),
    Row("queuedel", "262", USER, ["id"]),
    Row("queueclear", "263", MASTER, []),
    Row("queuesum", "265", GUEST, [])
  ]

  const TAG_ROWS: seq<Row> := [
    Row("taglist", "270", GUEST, []),
    Row("tagget", "271", GUEST, ["id"]),
    Row("tagsartist", "270", GUEST, ["id"]),
    Row("tag2id", "272", GUEST, ["name"]),
    Row("tagadd", "273", ADMIN, ["name"]),
    Row("tagsetname", "274", ADMIN, ["id", "name"]),
    Row("tagsetdesc", "275", ADMIN, ["id", "string"]),
    Row("tagdel", "276", ADMIN, ["id"]),
    Row("tracktaglist", "277", GUEST, ["id"]),
    Row("tracktagadd", "278", ADMIN, ["id", "id"]),
    Row("tracktagdel", "279", ADMIN, ["id", "id"]),
    Row("tracktagged", "279", GUEST, ["id", "id"])
  ]

  const ALBUM_ROWS: seq<Row> := [
    Row("albumlist", "281", GUEST, []),
    Row("albumsartist", "285", ADMIN, ["id"]),
    Row("albumstag", "285", ADMIN, ["id"]),
    Row("albumsearch", "282", GUEST, ["string"]),
    Row("albumget", "280", GUEST, ["id"]),
    Row("albumsetname", "283", ADMIN, ["id", "string"]),
    Row("albumsetartist", "284", ADMIN, ["id", "id"]),
    Row("albumsetyear", "286", ADMIN, ["id", "num"])
  ]

  const ARTIST_ROWS: seq<Row> := [
    Row("artistlist", "291", GUEST, []),
    Row("artistsearch", "292", GUEST, ["string"]),
    Row("artiststag", "292", GUEST, ["id"]),
    Row("artistget", "290", GUEST, ["id"]),
    Row("artistadd", "295", ADMIN, ["string"]),
    Row("artistsetname", "293", ADMIN, ["id", "string"]),
    Row("artistmerge", "294", ADMIN, ["id", "id"]),
    Row("artistdel", "295", ADMIN, ["id"])
  ]

  const SFILTER_ROWS: seq<Row> := [
    Row("sfilterlist", "270", GUEST, []),
    Row("sfilterget", "254", GUEST, ["id"]),
    Row("sfilter2id", "255", GUEST, ["name"]),
    Row("sfilteradd", "256", ADMIN, ["name"]),
    Row("sfiltersetname", "257", ADMIN, ["id", "name"]),
    Row("sfiltersetfilter", "258", ADMIN, ["id", "filter"]),
    Row("sfilterdel", "259", ADMIN, ["id"])
  ]

  const IDLE_ROWS: seq<Row> :=
    CLIENT_ROWS + (PLAYER_ROWS + (OPTION_ROWS + (TRACK_ROWS + (QUEUE_ROWS
    + (TAG_ROWS + (ALBUM_ROWS + (ARTIST_ROWS + SFILTER_ROWS)))))))

  function Bound(r: Row, context: Context, run: Handler, take: string -> Taker): Command
  {
    Command(r.name, r.code, r.perm, context, run,
            seq(|r.kinds|, i requires 0 <= i < |r.kinds| => take(r.kinds[i])))
  }

  /** The whole table, given how each kind of argument is read. */
  function Table(take: string -> Taker): seq<Command>
  {
    [Bound(Row("quit", "221", ANY, []), Anywhere, RunOther, take),
     Bound(Row("user", "320", ANY, ["name"]), In(Open), RunUser, take),
     Bound(Row("pass", "221", ANY, ["pass"]), In(Pending), RunPass, take)]
    + seq(|IDLE_ROWS|, i requires 0 <= i < |IDLE_ROWS| => Bound(IDLE_ROWS[i], In(Idle), RunOther, take))
    + [Bound(Row("help", "219", ANY, []), Anywhere, RunOther, take)]
  }

  /** USER and PASS are where logging in needs them, and every command for logged-in clients is idle only. */
  lemma TableIsWellPlaced(take: string -> Taker)
    ensures WellPlaced(Table(take))
    ensures forall c :: c in Table(take) && c.perm > ANY ==> c.context == In(Idle)
  {
    hide IDLE_ROWS;
    var n := |IDLE_ROWS|;
    var idle := seq(n, i requires 0 <= i < n => Bound(IDLE_ROWS[i], In(Idle), RunOther, take));
    forall i | 0 <= i < |Table(take)| ensures Placed(Table(take)[i]) {
      assert 3 <= i < n + 3 ==> Table(take)[i] == idle[i - 3];
    }
  }

  /** In every run, a command that needs a right is carried out only for a user who has it. */
  lemma RightsHold(take: string -> Taker, events: seq<Event>, line: string)
    ensures WellPlaced(Table(take))
    ensures var s := After(Table(take), events);
      var r := React(Table(take), s, line);
      r.Runs? && r.cmd.perm > ANY ==> s.pstate == Idle && s.user.Some? && r.cmd.perm <= s.user.value.right
  {
    hide Table, React, After;
    TableIsWellPlaced(take);
    HandlersAreSafe(Table(take), events, line);
    RunConsistent(Table(take), events);
  }

  // ----- no name is used twice -----

  /** A number that no two commands share. */
  function Key(name: string): int
    requires |name| >= 3
  {
    8 * |name| + name[0] as int + name[|name| - 3] as int + if |name| == 3 then 0 else 28 * name[|name| - 4] as int
  }

  /** Where the command with this number stands in the table; for other numbers the place does not matter. */
  function PlaceOf(k: int): int
  {
    if k < 230 then 24 else if k < 2985 then 22 else if k < 2995 then 17 else if k < 3015 then 20 else
    if k < 3023 then 70 else if k < 3034 then 76 else if k < 3097 then 35 else if k < 3098 then 61 else
    if k < 3102 then 58 else if k < 3103 then 51 else if k < 3105 then 28 else if k < 3108 then 52 else
    if k < 3120 then 50 else if k < 3127 then 54 else if k < 3145 then 81 else if k < 3148 then 59 else
    if k < 3149 then 62 else if k < 3151 then 90 else if k < 3175 then 56 else if k < 3185 then 26 else
    if k < 3188 then 64 else if k < 3191 then 65 else if k < 3223 then 66 else if k < 3226 then 19 else
    if k < 3256 then 40 else if k < 3279 then 11 else if k < 3280 then 39 else if k < 3290 then 32 else
    if k < 3298 then 43 else if k < 3301 then 67 else if k < 3306 then 55 else if k < 3308 then 75 else
    if k < 3310 then 3 else if k < 3314 then 6 else if k < 3316 then 49 else if k < 3318 then 71 else
    if k < 3322 then 53 else if k < 3323 then 4 else if k < 3326 then 15 else if k < 3332 then 37 else
    if k < 3341 then 83 else if k < 3342 then 63 else if k < 3353 then 30 else if k < 3370 then 31 else
    if k < 3373 then 72 else if k < 3377 then 60 else if k < 3378 then 2 else if k < 3383 then 80 else
    if k < 3388 then 88 else if k < 3389 then 13 else if k < 3394 then 41 else if k < 3402 then 16 else
    if k < 3404 then 23 else if k < 3408 then 87 else if k < 3413 then 18 else if k < 3415 then 27 else
    if k < 3421 then 8 else if k < 3426 then 34 else if k < 3430 then 0 else if k < 3437 then 33 else
    if k < 3438 then 85 else if k < 3452 then 10 else if k < 3453 then 21 else if k < 3462 then 29 else
    if k < 3465 then 9 else if k < 3468 then 12 else if k < 3481 then 7 else if k < 3482 then 44 else
    if k < 3483 then 46 else if k < 3484 then 14 else if k < 3487 then 86 else if k < 3489 then 89 else
    if k < 3490 then 48 else if k < 3503 then 84 else if k < 3505 then 36 else if k < 3510 then 69 else
    if k < 3513 then 25 else if k < 3514 then 77 else if k < 3517 then 79 else if k < 3518 then 82 else
    if k < 3519 then 45 else if k < 3520 then 47 else if k < 3540 then 78 else if k < 3546 then 1 else
    if k < 3549 then 68 else if k < 3562 then 57 else if k < 3565 then 73 else if k < 3581 then 38 else
    if k < 3610 then 42 else if k < 3682 then 5 else 74
  }

  predicate Stands(name: string, at: int) { |name| >= 3 && PlaceOf(Key(name)) == at }

  predicate InPlace(rows: seq<Row>, at: int) { forall i :: 0 <= i < |rows| ==> Stands(rows[i].name, at + i) }

  lemma ClientPlaced()
    ensures InPlace(CLIENT_ROWS, 3) && |CLIENT_ROWS| == 10
  {}

  lemma PlayerPlaced()
    ensures InPlace(PLAYER_ROWS, 13) && |PLAYER_ROWS| == 9
  {}

  lemma OptionPlaced()
    ensures InPlace(OPTION_ROWS, 22) && |OPTION_ROWS| == 12
  {}

  lemma TrackPlaced()
    ensures InPlace(TRACK_ROWS, 34) && |TRACK_ROWS| == 9
  {}

  lemma QueuePlaced()
    ensures InPlace(QUEUE_ROWS, 43) && |QUEUE_ROWS| == 12
  {}

  lemma TagPlaced()
    ensures InPlace(TAG_ROWS, 55) && |TAG_ROWS| == 12
  {}

  lemma AlbumPlaced()
    ensures InPlace(ALBUM_ROWS, 67) && |ALBUM_ROWS| == 8
  {}

  lemma ArtistPlaced()
    ensures InPlace(ARTIST_ROWS, 75) && |ARTIST_ROWS| == 8
  {}

  lemma SfilterPlaced()
    ensures InPlace(SFILTER_ROWS, 83) && |SFILTER_ROWS| == 7
  {}

  lemma PlacedCat(a: seq<Row>, b: seq<Row>, at: int)
    requires InPlace(a, at) && InPlace(b, at + |a|)
    ensures InPlace(a + b, at)
  {
    hide Stands;
  }

  lemma IdlePlaced()
    ensures InPlace(IDLE_ROWS, 3) && |IDLE_ROWS| == 87
  {
    hide InPlace, CLIENT_ROWS, PLAYER_ROWS, OPTION_ROWS, TRACK_ROWS, QUEUE_ROWS;
    hide TAG_ROWS, ALBUM_ROWS, ARTIST_ROWS, SFILTER_ROWS;
    ClientPlaced();
    PlayerPlaced();
    OptionPlaced();
    TrackPlaced();
    QueuePlaced();
    TagPlaced();
    AlbumPlaced();
    ArtistPlaced();
    SfilterPlaced();
    var artists := ARTIST_ROWS + SFILTER_ROWS;
    PlacedCat(ARTIST_ROWS, SFILTER_ROWS, 75);
    var albums := ALBUM_ROWS + artists;
    PlacedCat(ALBUM_ROWS, artists, 67);
    var tags := TAG_ROWS + albums;
    PlacedCat(TAG_ROWS, albums, 55);
    var queue := QUEUE_ROWS + tags;
    PlacedCat(QUEUE_ROWS, tags, 43);
    var tracks := TRACK_ROWS + queue;
    PlacedCat(TRACK_ROWS, queue, 34);
    var options := OPTION_ROWS + tracks;
    PlacedCat(OPTION_ROWS, tracks, 22);
    var player := PLAYER_ROWS + options;
    PlacedCat(PLAYER_ROWS, options, 13);
    PlacedCat(CLIENT_ROWS, player, 3);
  }

  lemma TablePlaced(take: string -> Taker)
    ensures forall i :: 0 <= i < |Table(take)| ==> Stands(Table(take)[i].name, i)
  {
    hide IDLE_ROWS;
    IdlePlaced();
    var idle := seq(87, i requires 0 <= i < 87 => Bound(IDLE_ROWS[i], In(Idle), RunOther, take));
    forall i | 0 <= i < |Table(take)| ensures Stands(Table(take)[i].name, i) {
      assert 3 <= i < 90 ==> Table(take)[i] == idle[i - 3] && Stands(IDLE_ROWS[i - 3].name, i);
    }
  }

  /** No two commands have one name, so in every state HELP lists exactly the commands that can be reached. */
  lemma HelpIsExact(take: string -> Taker, s: PState)
    ensures var table := Table(take);
      && (forall i, j :: 0 <= i < j < |table| ==> table[i].name != table[j].name)
      && FirstIsLeast(table, s)
      && forall right, name :: name in HelpNames(table, s, right) <==> Reaches(table, s, right, name)
  {
    hide Table, PlaceOf, HelpNames, Reaches, FirstIsLeast;
    TablePlaced(take);
    DistinctNames(Table(take), s);
    HelpExact(Table(take), s);
  }

  // ----- logging in, line by line -----

  /** A text that is one argument. */
  predicate Argument(take: Taker, a: string) { a != "" && !IsSpace(a[0]) && take(a) == |a| }

  lemma OneArgument(take: Taker, a: string)
    requires Argument(take, a)
    ensures Separated([take], " " + a, [a])
  {
    var args, argv := [take], [a];
    assert " " + a + "" == " " + a && a + "" == a;
    assert args[1..] == [] && argv[1..] == [];
    assert Leads(args[0], " " + a, " ", argv[0], "") && Separated(args[1..], "", argv[1..]);
  }

  /** A line of a login command and its argument runs that command. */
  lemma LoginLine(take: string -> Taker, s: State, i: nat, kind: string, a: string)
    requires (i == 1 && s.pstate == Open && kind == "name") || (i == 2 && s.pstate == Pending && kind == "pass")
    requires s.user == None && Argument(take(kind), a)
    ensures var cmd := Table(take)[i]; React(Table(take), s, cmd.name + " " + a) == Runs(cmd, [a])
    ensures Table(take)[i].run == if i == 1 then RunUser else RunPass
  {
    hide IDLE_ROWS, Separated, FindCmd, React;
    var table := Table(take);
    var cmd := table[i];
    FoundFirst(table, s.pstate, cmd.name, i);
    OneArgument(take(kind), a);
    assert cmd.args == [take(kind)];
    Cat3("", cmd.name, " " + a);
    Cat3(cmd.name, " ", a);
    assert "" + cmd.name == cmd.name;
    ReactExact(table, s, "", cmd.name, " " + a);
  }

  /** Two lines log in whoever gives a name that is known and the password for it, and nobody else. */
  lemma LogsIn(take: string -> Taker, user: Event, pass: Event, name: string, password: string)
    requires Argument(take("name"), name) && Argument(take("pass"), password)
    requires user.line == "user " + name && pass.line == "pass " + password
    ensures WellPlaced(Table(take))
    ensures var a := pass.users(name);
      After(Table(take), [user, pass]) ==
        if a.Some? && pass.accepts(a.value, password) then State(Idle, None, a) else START
  {
    hide IDLE_ROWS, React, Step, Table;
    TableIsWellPlaced(take);
    LoginRows(take);
    var table := Table(take);
    var s := State(Pending, Some(name), None);
    assert "user" + " " + name == "user " + name && "pass" + " " + password == "pass " + password;
    LoginLine(take, START, 1, "name", name);
    StepExact(table, START, user);
    LoginLine(take, s, 2, "pass", password);
    StepExact(table, s, pass);
    var one, both := [user], [user, pass];
    assert both[..1] == one && one[..0] == [];
    assert After(table, one) == Step(table, START, user) == s;
    assert After(table, both) == Step(table, s, pass);
  }

  lemma LoginRows(take: string -> Taker)
    ensures |Table(take)| > 2 && Table(take)[1].name == "user" && Table(take)[2].name == "pass"
  {}
}
