/** One connection: which command a line reaches, what logging in does, and what that keeps over a run. */
module Session {
  import opened Text

  // ----- commands -----

  datatype PState = Open | Pending | Idle

  /** Where a command is allowed: in any state or in one. */
  datatype Context = Anywhere | In(state: PState)

  /** Rights in increasing order. */
  const ANY: int := 0
  const GUEST: int := 1
  const USER: int := 2
  const ADMIN: int := 3
  const MASTER: int := 4

  /** What a command does to the session: all but two handlers leave it alone. */
  datatype Handler = RunUser | RunPass | RunOther

  /** Tells how many characters of a text an argument takes; none means that there is no such argument. */
  type Taker = string -> nat

  datatype Command = Command(name: string, code: string, perm: int, context: Context, run: Handler, args: seq<Taker>)

  predicate Allowed(c: Command, s: PState) { c.context == Anywhere || c.context == In(s) }

  /** The first command of that name that is allowed in this state. */
  function FindCmd(table: seq<Command>, s: PState, name: string): (r: Option<Command>)
    ensures r.Some? ==> r.value in table && Allowed(r.value, s) && r.value.name == name
    ensures r.None? ==> forall c :: c in table && Allowed(c, s) ==> c.name != name
  {
    if table == [] then None
    else if Allowed(table[0], s) && table[0].name == name then Some(table[0])
    else FindCmd(table[1..], s, name)
  }

  // ----- arguments -----

  datatype Args = Good(argv: seq<string>) | Invalid(index: nat) | TooMany | Missing

  /** An argument is read at the start of s: not empty, and up to the end or a blank. */
  predicate Reads(take: Taker, s: string) { 0 < take(s) <= |s| && (take(s) < |s| ==> IsSpace(s[take(s)])) }

  /** Arguments from the n-th on. */
  function ParseArgs(args: seq<Taker>, line: string, n: nat): (r: Args)
    requires n <= |args|
    ensures r.Good? ==> n + |r.argv| == |args|
    decreases |args| - n
  {
    if n == |args| then if line == "" then Good([]) else TooMany else
      var s := Trim(line);
      if s == "" then Missing
      else if !Reads(args[n], s) then Invalid(n)
      else
        match ParseArgs(args, s[args[n](s)..], n + 1)
        case Good(argv) => Good([s[..args[n](s)]] + argv)
        case bad => bad
  }

  /** The line is blanks, an argument and a rest that does not continue it. */
  predicate Leads(take: Taker, line: string, w: string, a: string, rest: string)
  {
    && line == w + a + rest && AllSpace(w) && a != "" && !IsSpace(a[0])
    && take(a + rest) == |a| && (rest == "" || IsSpace(rest[0]))
  }

  /** A line of arguments: each is preceded by blanks, and nothing follows the last one. */
  ghost predicate Separated(args: seq<Taker>, line: string, argv: seq<string>)
  {
    if args == [] then line == "" && argv == []
    else argv != [] && exists w, rest :: Leads(args[0], line, w, argv[0], rest) && Separated(args[1..], rest, argv[1..])
  }

  lemma ParseShift(args: seq<Taker>, line: string, n: nat)
    requires n < |args|
    ensures ParseArgs(args, line, n + 1) ==
      match ParseArgs(args[1..], line, n) case Invalid(k) => Invalid(k + 1) case r => r
    decreases |args| - n
  {
    if n + 1 < |args| {
      var s := Trim(line);
      if s != "" && Reads(args[n + 1], s) { ParseShift(args, s[args[n + 1](s)..], n + 1); }
    }
  }

  lemma LeadsReads(take: Taker, line: string, w: string, a: string, rest: string)
    requires Leads(take, line, w, a, rest)
    ensures Trim(line) == a + rest != "" && Reads(take, a + rest)
    ensures (a + rest)[..|a|] == a && (a + rest)[|a|..] == rest
  {
    hide Blank, Trim;
    Cat3(w, a, rest);
    BlankSplit(w, a + rest);
    Joined(a, rest);
  }

  lemma ReadsLeads(take: Taker, line: string, s: string, k: nat)
    requires s == Trim(line) != "" && Reads(take, s) && k == take(s)
    ensures Leads(take, line, line[..Blank(line)], s[..k], s[k..])
  {
    hide Blank;
    Split(s, k);
    Split(line, Blank(line));
    Cat3(line[..Blank(line)], s[..k], s[k..]);
    assert s[..k][0] == s[0];
  }

  /** Arguments are accepted exactly if the line separates into them. */
  lemma {:induction false} ArgsExact(args: seq<Taker>, line: string, argv: seq<string>)
    ensures ParseArgs(args, line, 0) == Good(argv) <==> Separated(args, line, argv)
    decreases |args|
  {
    hide Blank, Trim, Leads, Reads;
    if args != [] {
      if ParseArgs(args, line, 0) == Good(argv) { ArgsSound(args, line, argv); }
      if Separated(args, line, argv) {
        var w, rest :| Leads(args[0], line, w, argv[0], rest) && Separated(args[1..], rest, argv[1..]);
        LeadsReads(args[0], line, w, argv[0], rest);
        TakesIt(args[0], line, w, argv[0], rest);
        ArgsExact(args[1..], rest, argv[1..]);
        ParseShift(args, rest, 0);
        assert [argv[0]] + argv[1..] == argv;
      }
    }
  }

  lemma TakesIt(take: Taker, line: string, w: string, a: string, rest: string)
    requires Leads(take, line, w, a, rest)
    ensures take(a + rest) == |a|
  {}

  lemma {:induction false} ArgsSound(args: seq<Taker>, line: string, argv: seq<string>)
    requires args != [] && ParseArgs(args, line, 0) == Good(argv)
    ensures Separated(args, line, argv)
    decreases |args|, 0
  {
    hide Blank, Trim, Leads;
    var s := Trim(line);
    var k := args[0](s);
    ReadsLeads(args[0], line, s, k);
    ParseShift(args, s[k..], 0);
    assert argv[0] == s[..k] && ParseArgs(args[1..], s[k..], 0) == Good(argv[1..]);
    if |args| > 1 { ArgsSound(args[1..], s[k..], argv[1..]); }
  }

  // ----- a line -----

  /** Length of the leading run of letters and digits. */
  function NameEnd(s: string): (k: nat)
    ensures k <= |s| && AllAlnum(s[..k]) && (k < |s| ==> !IsAlnum(s[k]))
  {
    if s == "" || !IsAlnum(s[0]) then 0 else
      var k := 1 + NameEnd(s[1..]);
      assert s[..k] == [s[0]] + s[1..][..k - 1];
      k
  }

  datatype Account = Account(id: int, name: string, right: int)

  datatype State = State(pstate: PState, pdata: Option<string>, user: Option<Account>)

  const START := State(Open, None, None)

  function RightOf(s: State): int { if s.user.Some? then s.user.value.right else ANY }

  datatype Reaction = NoCommand | Unknown | Forbidden | BadArgs(why: Args) | Runs(cmd: Command, argv: seq<string>)

  function React(table: seq<Command>, s: State, line: string): (r: Reaction)
    ensures r.Runs? ==> r.cmd in table && Allowed(r.cmd, s.pstate) && r.cmd.perm <= RightOf(s)
    ensures r.Runs? ==> |r.argv| == |r.cmd.args|
  {
    var t := Trim(line);
    var k := NameEnd(t);
    if k == 0 then NoCommand else
      match FindCmd(table, s.pstate, t[..k])
      case None => Unknown
      case Some(cmd) =>
        if RightOf(s) < cmd.perm then Forbidden else
          match ParseArgs(cmd.args, t[k..], 0)
          case Good(argv) => Runs(cmd, argv)
          case bad => BadArgs(bad)
  }

  // ----- logging in -----

  /** A line, and the user database at that time: the account of a name, and whether a password is right for it. */
  datatype Event = Event(line: string, users: string -> Option<Account>, accepts: (Account, string) -> bool)

  /** The account that a name and a password give access to; PASS always finds a name, see HandlersAreSafe. */
  function Granted(e: Event, name: Option<string>, password: string): Option<Account>
  {
    if name.None? then None else
      var user := e.users(name.value);
      if user.Some? && e.accepts(user.value, password) then user else None
  }

  function Execute(s: State, run: Handler, argv: seq<string>, e: Event): State
    requires run != RunOther ==> argv != []
  {
    match run
    case RunUser => s.(pdata := Some(argv[0]), pstate := Pending)
    case RunPass =>
      var user := Granted(e, s.pdata, argv[0]);
      if user.Some? then State(Idle, None, user) else State(Open, None, None)
    case RunOther => s
  }

  /** The two login commands take one argument, and each is allowed in one state only. */
  predicate Placed(c: Command)
  {
    && (c.run == RunUser ==> c.context == In(Open) && |c.args| == 1)
    && (c.run == RunPass ==> c.context == In(Pending) && |c.args| == 1)
  }

  predicate WellPlaced(table: seq<Command>) { forall i :: 0 <= i < |table| ==> Placed(table[i]) }

  function Step(table: seq<Command>, s: State, e: Event): State
    requires WellPlaced(table)
  {
    var r := React(table, s, e.line);
    if r.Runs? then
      assert Placed(r.cmd);
      Execute(s, r.cmd.run, r.argv, e)
    else s
  }

  function After(table: seq<Command>, events: seq<Event>): State
    requires WellPlaced(table)
  { if events == [] then START else Step(table, After(table, events[..|events| - 1]), events[|events| - 1]) }

  // ----- what every run keeps -----

  /** A user is attached exactly in the idle state, and a name is pending exactly in the user state. */
  predicate Consistent(s: State) { (s.pstate == Idle <==> s.user.Some?) && (s.pstate == Pending <==> s.pdata.Some?) }

  lemma StepConsistent(table: seq<Command>, s: State, e: Event)
    requires WellPlaced(table) && Consistent(s)
    ensures Consistent(Step(table, s, e))
  {
    hide React;
    var r := React(table, s, e.line);
    if r.Runs? { assert Placed(r.cmd); }
  }

  /**
   What a line does to a session: USER makes its name pending, PASS attaches the account of the pending name if
   there is one and the password is right for it, or else starts over, and every other line does nothing.
   */
  lemma StepExact(table: seq<Command>, s: State, e: Event)
    requires WellPlaced(table) && Consistent(s)
    ensures var r, s1 := React(table, s, e.line), Step(table, s, e);
      if !r.Runs? || r.cmd.run == RunOther then s1 == s
      else if r.cmd.run == RunUser then |r.argv| == 1 && s1 == State(Pending, Some(r.argv[0]), None)
      else
        && |r.argv| == 1 && s.pdata.Some?
        && var a := e.users(s.pdata.value);
           s1 == if a.Some? && e.accepts(a.value, r.argv[0]) then State(Idle, None, a) else START
  {
    hide React;
    var r := React(table, s, e.line);
    if r.Runs? { assert Placed(r.cmd); }
  }

  lemma {:induction false} RunConsistent(table: seq<Command>, events: seq<Event>)
    requires WellPlaced(table)
    ensures Consistent(After(table, events))
  {
    hide Step, React;
    if events != [] {
      RunConsistent(table, events[..|events| - 1]);
      StepConsistent(table, After(table, events[..|events| - 1]), events[|events| - 1]);
    }
  }

  /** In every reachable state a command for idle clients finds a user with the right it needs, and PASS a name. */
  lemma HandlersAreSafe(table: seq<Command>, events: seq<Event>, line: string)
    requires WellPlaced(table)
    ensures var s := After(table, events);
      var r := React(table, s, line);
      r.Runs? ==>
        && (r.cmd.context == In(Idle) ==> s.user.Some? && r.cmd.perm <= s.user.value.right)
        && (r.cmd.run == RunPass ==> s.pdata.Some?)
        && (r.cmd.run == RunUser ==> s.user.None? && s.pdata.None?)
  {
    hide React, After;
    RunConsistent(table, events);
    var s := After(table, events);
    var r := React(table, s, line);
    if r.Runs? { assert Placed(r.cmd); }
  }

  /** Once a user is attached nothing changes any more. */
  lemma {:induction false} LoginIsFinal(table: seq<Command>, events: seq<Event>, more: seq<Event>)
    requires WellPlaced(table) && After(table, events).pstate == Idle
    ensures After(table, events + more) == After(table, events)
  {
    hide React;
    if more == [] {
      assert events + more == events;
    } else {
      var k := |more| - 1;
      assert (events + more)[..|events + more| - 1] == events + more[..k];
      LoginIsFinal(table, events, more[..k]);
      var s := After(table, events + more[..k]);
      var r := React(table, s, more[k].line);
      if r.Runs? { assert Placed(r.cmd); }
    }
  }

  /** Event i gave the name, event j the password, and the name stayed pending in between. */
  ghost predicate LoggedInBy(table: seq<Command>, events: seq<Event>, name: string, user: Account, i: nat, j: nat)
    requires WellPlaced(table)
  {
    && i < j < |events|
    && NameGiven(table, events, name, i)
    && (forall k :: i < k <= j ==> After(table, events[..k]) == State(Pending, Some(name), None))
    && (var r := React(table, After(table, events[..j]), events[j].line);
        r.Runs? && r.cmd.run == RunPass && |r.argv| == 1
        && events[j].users(name) == Some(user) && events[j].accepts(user, r.argv[0]))
  }

  ghost predicate NameGiven(table: seq<Command>, events: seq<Event>, name: string, i: nat)
    requires WellPlaced(table)
  {
    && i < |events|
    && (var r := React(table, After(table, events[..i]), events[i].line);
        r.Runs? && r.cmd.run == RunUser && r.argv == [name])
  }

  ghost predicate PendingSince(table: seq<Command>, events: seq<Event>, name: string, i: nat)
    requires WellPlaced(table)
  {
    && i < |events| && NameGiven(table, events, name, i)
    && forall k :: i < k <= |events| ==> After(table, events[..k]) == State(Pending, Some(name), None)
  }

  /** A name is pending only since a USER command gave it. */
  lemma {:induction false} PendingHasCause(table: seq<Command>, events: seq<Event>) returns (i: nat)
    requires WellPlaced(table) && After(table, events).pstate == Pending
    ensures After(table, events).pdata.Some? && PendingSince(table, events, After(table, events).pdata.value, i)
  {
    hide React;
    RunConsistent(table, events);
    i := 0;
    var k := |events| - 1;
    var before := events[..k];
    RunConsistent(table, before);
    var s := After(table, before);
    var name := After(table, events).pdata.value;
    var r := React(table, s, events[k].line);
    if r.Runs? { assert Placed(r.cmd); }
    assert events[..|events|] == events;
    if r.Runs? && r.cmd.run == RunUser {
      i := k;
      assert r.argv == [name];
    } else {
      i := PendingHasCause(table, before);
      assert forall m :: 0 <= m <= k ==> before[..m] == events[..m];
      assert events[i] == before[i];
    }
  }

  /**
   A user is attached only by a USER command with a name and a PASS command with the right password for the
   account of that name, in this order, and it is that account.
   */
  lemma {:induction false} LoginHasCause(table: seq<Command>, events: seq<Event>) returns (name: string, i: nat, j: nat)
    requires WellPlaced(table) && After(table, events).user.Some?
    ensures LoggedInBy(table, events, name, After(table, events).user.value, i, j)
  {
    hide React;
    var k := |events| - 1;
    var before := events[..k];
    RunConsistent(table, before);
    var s := After(table, before);
    var r := React(table, s, events[k].line);
    if r.Runs? { assert Placed(r.cmd); }
    assert forall m :: 0 <= m <= k ==> before[..m] == events[..m];
    if r.Runs? && r.cmd.run == RunPass {
      i := PendingHasCause(table, before);
      name, j := s.pdata.value, k;
      assert events[i] == before[i];
    } else {
      name, i, j := LoginHasCause(table, before);
      assert events[i] == before[i] && events[j] == before[j];
    }
  }

  /** What was given by USER and PASS attaches the account, and keeps it. */
  lemma LoginWorks(table: seq<Command>, events: seq<Event>, name: string, user: Account, i: nat, j: nat)
    requires WellPlaced(table) && LoggedInBy(table, events, name, user, i, j)
    ensures After(table, events) == State(Idle, None, Some(user))
  {
    hide React, Step;
    var before, upto := events[..j], events[..j + 1];
    RunConsistent(table, before);
    StepExact(table, After(table, before), events[j]);
    assert upto[..j] == before;
    assert upto + events[j + 1..] == events;
    LoginIsFinal(table, upto, events[j + 1..]);
  }

  /** An account is attached if and only if USER gave its name and PASS its password, in this order. */
  lemma LoginExact(table: seq<Command>, events: seq<Event>, user: Account)
    requires WellPlaced(table)
    ensures After(table, events).user == Some(user) <==>
      exists name, i: nat, j: nat :: LoggedInBy(table, events, name, user, i, j)
  {
    hide After, LoggedInBy;
    if After(table, events).user == Some(user) {
      var name, i, j := LoginHasCause(table, events);
    }
    if name, i: nat, j: nat :| LoggedInBy(table, events, name, user, i, j) {
      LoginWorks(table, events, name, user, i, j);
    }
  }

  // ----- help -----

  /** The names HELP lists, in order. */
  function HelpNames(table: seq<Command>, s: PState, right: int): seq<string>
  {
    if table == [] then [] else
      HelpNames(table[..|table| - 1], s, right) +
      (var c := table[|table| - 1]; if Allowed(c, s) && c.perm <= right then [c.name] else [])
  }

  /** A command of that name is found and permitted. */
  predicate Reaches(table: seq<Command>, s: PState, right: int, name: string)
  { FindCmd(table, s, name).Some? && FindCmd(table, s, name).value.perm <= right }

  lemma {:induction false} HelpLists(table: seq<Command>, s: PState, right: int, name: string)
    ensures name in HelpNames(table, s, right) <==>
      exists c :: c in table && Allowed(c, s) && c.perm <= right && c.name == name
  {
    hide Allowed;
    if table != [] {
      var k := |table| - 1;
      HelpLists(table[..k], s, right, name);
      assert forall c :: c in table <==> c in table[..k] || c == table[k];
    }
  }

  /** The names are listed in the order of the table, one for every command that is allowed and permitted. */
  lemma {:induction false} HelpInOrder(a: seq<Command>, c: Command, b: seq<Command>, s: PState, right: int)
    ensures HelpNames(a + [c] + b, s, right) ==
      HelpNames(a, s, right) + (if Allowed(c, s) && c.perm <= right then [c.name] else []) + HelpNames(b, s, right)
    decreases |b|
  {
    hide Allowed;
    var all, k := a + [c] + b, |b| - 1;
    if b == [] {
      assert all == a + [c] && all[..|all| - 1] == a;
    } else {
      HelpInOrder(a, c, b[..k], s, right);
      assert all[..|all| - 1] == a + [c] + b[..k] && all[|all| - 1] == b[k];
    }
  }

  /** Of all commands with one name, the first that is allowed in a state needs the least right. */
  ghost predicate FirstIsLeast(table: seq<Command>, s: PState)
  {
    forall c :: c in table && Allowed(c, s) ==>
      FindCmd(table, s, c.name).Some? && FindCmd(table, s, c.name).value.perm <= c.perm
  }

  /** HELP lists exactly the commands that can be reached, for every right, if and only if the first is the least. */
  lemma HelpExact(table: seq<Command>, s: PState)
    ensures (forall right, name :: name in HelpNames(table, s, right) <==> Reaches(table, s, right, name))
      <==> FirstIsLeast(table, s)
  {
    hide HelpNames;
    forall right, name
      ensures name in HelpNames(table, s, right) <==>
      exists c :: c in table && Allowed(c, s) && c.perm <= right && c.name == name
    { HelpLists(table, s, right, name); }
    if !FirstIsLeast(table, s) {
      var c :| c in table && Allowed(c, s) &&
        !(FindCmd(table, s, c.name).Some? && FindCmd(table, s, c.name).value.perm <= c.perm);
      assert c.name in HelpNames(table, s, c.perm) && !Reaches(table, s, c.perm, c.name);
    }
  }

  function Twice(code: string): seq<Command>
  { [Command("x", code, MASTER, Anywhere, RunOther, []), Command("x", code, ANY, Anywhere, RunOther, [])] }

  /** A second command of the same name that needs less right is listed, but cannot be reached. */
  lemma DuplicateIsListed(code: string)
    ensures var table := Twice(code);
      "x" in HelpNames(table, Idle, ANY) && !Reaches(table, Idle, ANY, "x")
  {
    var table := Twice(code);
    HelpLists(table, Idle, ANY, "x");
    assert table[1] in table;
  }

  /** That is so for every table with distinct names. */
  lemma {:induction false} DistinctNames(table: seq<Command>, s: PState)
    requires forall i, j :: 0 <= i < j < |table| ==> table[i].name != table[j].name
    ensures FirstIsLeast(table, s)
  {
    forall c | c in table && Allowed(c, s)
      ensures FindCmd(table, s, c.name) == Some(c)
    {
      var f := FindCmd(table, s, c.name);
      assert f.Some? && f.value in table && f.value.name == c.name;
    }
  }

  /** The command found is the first of that name that is allowed. */
  lemma {:induction false} FoundFirst(table: seq<Command>, s: PState, name: string, i: nat)
    requires i < |table| && Allowed(table[i], s) && table[i].name == name
    requires forall j :: 0 <= j < i ==> !(Allowed(table[j], s) && table[j].name == name)
    ensures FindCmd(table, s, name) == Some(table[i])
  {
    hide Allowed;
    if i > 0 {
      assert table[1..][i - 1] == table[i] && !(Allowed(table[0], s) && table[0].name == name);
      FoundFirst(table[1..], s, name, i - 1);
    }
  }

  /** What a line that starts with a name, blanks aside, leads to. */
  lemma ReactExact(table: seq<Command>, s: State, w: string, name: string, rest: string)
    requires AllSpace(w) && name != "" && AllAlnum(name) && (rest == "" || !IsAlnum(rest[0]))
    ensures var r, cmd := React(table, s, w + name + rest), FindCmd(table, s.pstate, name);
      && (r == Unknown <==> forall c :: c in table && Allowed(c, s.pstate) ==> c.name != name)
      && (r == Forbidden <==> cmd.Some? && RightOf(s) < cmd.value.perm)
      && (forall argv :: cmd.Some? && r == Runs(cmd.value, argv) <==>
            cmd.Some? && cmd.value.perm <= RightOf(s) && Separated(cmd.value.args, rest, argv))
      && (forall why :: r == BadArgs(why) <==>
            && cmd.Some? && cmd.value.perm <= RightOf(s)
            && ParseArgs(cmd.value.args, rest, 0) == why && !why.Good?)
  {
    hide FindCmd, ParseArgs, Separated;
    Cat3(w, name, rest);
    assert !IsSpace(name[0]);
    BlankSplit(w, name + rest);
    NameEndIs(name, rest);
    Joined(name, rest);
    var cmd := FindCmd(table, s.pstate, name);
    if cmd.Some? {
      forall argv { ArgsExact(cmd.value.args, rest, argv); }
    }
  }

  /** A line without a name in front, blanks aside, is no command. */
  lemma NoCommandExact(table: seq<Command>, s: State, line: string)
    ensures React(table, s, line) == NoCommand <==> Trim(line) == "" || !IsAlnum(Trim(line)[0])
  {
    hide FindCmd, ParseArgs;
  }

  /** What reaching means: any line that starts with the name, blanks aside, has its arguments parsed. */
  lemma ReachesMeans(table: seq<Command>, s: State, w: string, name: string, rest: string)
    requires AllSpace(w) && name != "" && AllAlnum(name) && (rest == "" || !IsAlnum(rest[0]))
    ensures var r := React(table, s, w + name + rest);
      r.Runs? || r.BadArgs? <==> Reaches(table, s.pstate, RightOf(s), name)
  {
    hide FindCmd, ParseArgs;
    Cat3(w, name, rest);
    assert !IsSpace(name[0]);
    BlankSplit(w, name + rest);
    NameEndIs(name, rest);
    Joined(name, rest);
  }

  lemma {:induction false} NameEndIs(name: string, rest: string)
    requires AllAlnum(name) && (rest == "" || !IsAlnum(rest[0]))
    ensures NameEnd(name + rest) == |name|
  {
    if name == "" {
      assert name + rest == rest;
    } else {
      assert (name + rest)[1..] == name[1..] + rest;
      NameEndIs(name[1..], rest);
    }
  }
}
