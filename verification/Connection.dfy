/** The code that handles the lines of a connection. */
module Connection {
  import opened Text
  import opened Session

  /** Moves over blanks. */
  method SkipSpace(s: string, at: nat) returns (next: nat)
    requires at <= |s|
    ensures at <= next <= |s| && s[next..] == Trim(s[at..])
  {
    hide Blank;
    next := at;
    while next < |s| && IsSpace(s[next])
      invariant at <= next <= |s| && forall j :: at <= j < next ==> IsSpace(s[j])
    {
      next := next + 1;
    }
    BlankSplit(s[at..next], s[next..]);
    assert s[at..] == s[at..next] + s[next..];
  }

  /** The end of the name at a place. */
  method ValName(s: string, at: nat) returns (end: nat)
    requires at <= |s|
    ensures at <= end <= |s| && end - at == NameEnd(s[at..])
  {
    hide NameEnd;
    end := at;
    while end < |s| && IsAlnum(s[end])
      invariant at <= end <= |s| && forall j :: at <= j < end ==> IsAlnum(s[j])
    {
      end := end + 1;
    }
    NameEndIs(s[at..end], s[end..]);
    assert s[at..] == s[at..end] + s[end..];
  }

  method CmdFind(table: seq<Command>, context: PState, name: string) returns (cmd: Option<Command>)
    ensures cmd == FindCmd(table, context, name)
  {
    hide Allowed;
    var i := 0;
    while i < |table|
      invariant i <= |table| && FindCmd(table, context, name) == FindCmd(table[i..], context, name)
    {
      if Allowed(table[i], context) && table[i].name == name { return Some(table[i]); }
      assert table[i..][1..] == table[i + 1..];
      i := i + 1;
    }
    return None;
  }

  /** What the rest of the loop adds to what it has. */
  function Joins(argv: seq<string>, r: Args): Args { if r.Good? then Good(argv + r.argv) else r }

  method CmdParse(args: seq<Taker>, line: string) returns (r: Args)
    ensures r == ParseArgs(args, line, 0)
  {
    hide Trim;
    var next, missing, argv := 0, 0, [];
    assert line[0..] == line;
    for n := 0 to |args|
      invariant next <= |line| && (missing > 0 ==> next == |line|)
      invariant ParseArgs(args, line, 0) ==
        if missing > 0 then Missing else Joins(argv, ParseArgs(args, line[next..], n))
    {
      next := SkipSpace(line, next);
      if next == |line| {
        missing := missing + 1;
        continue;
      }
      var s := line[next..];
      var k := args[n](s);
      if k == 0 || k > |s| || (k < |s| && !IsSpace(s[k])) { return Invalid(n); }
      next := next + k;
      argv := argv + [s[..k]];
      assert line[next..] == s[k..];
      JoinsStep(argv[..|argv| - 1], s[..k], ParseArgs(args, s[k..], n + 1));
    }
    if next < |line| { return TooMany; }
    if missing > 0 { return Missing; }
    assert argv + [] == argv;
    return Good(argv);
  }

  lemma JoinsStep(argv: seq<string>, a: string, r: Args)
    ensures Joins(argv, if r.Good? then Good([a] + r.argv) else r) == Joins(argv + [a], r)
  {
    if r.Good? { assert argv + ([a] + r.argv) == argv + [a] + r.argv; }
  }

  /** The part of a client that its session is about. */
  class Client {
    var pstate: PState
    var pdata: Option<string>
    var user: Option<Account>

    ghost function View(): State
      reads this
    { State(pstate, pdata, user) }

    ghost predicate Valid()
      reads this
    { Consistent(View()) }

    constructor ()
      ensures Valid() && View() == START
    {
      pstate, pdata, user := Open, None, None;
    }

    method CmdUser(name: string)
      requires Valid() && pstate == Open
      modifies this
      ensures Valid() && View() == old(View()).(pstate := Pending, pdata := Some(name))
    {
      pdata := Some(name);
      pstate := Pending;
    }

    /** Asks the user database for the pending name. */
    method CmdPass(e: Event, password: string)
      requires Valid() && pdata.Some?
      modifies this
      ensures Valid() && pstate != Pending
      ensures var user := Granted(e, old(pdata), password);
        View() == if user.Some? then State(Idle, None, user) else START
    {
      user := e.users(pdata.value);
      if user.Some? && e.accepts(user.value, password) {
        pstate := Idle;
      } else {
        user := None;
        pstate := Open;
      }
      pdata := None;
    }

    /** The command names sent, in order. */
    method CmdHelp(table: seq<Command>) returns (names: seq<string>)
      ensures names == HelpNames(table, pstate, RightOf(View()))
    {
      var perm := if user.Some? then user.value.right else ANY;
      names := [];
      assert table[..0] == [];
      for i := 0 to |table|
        invariant names == HelpNames(table[..i], pstate, perm)
      {
        assert table[..i + 1][..i] == table[..i];
        if table[i].context != Anywhere && table[i].context != In(pstate) { continue; }
        if table[i].perm > perm { continue; }
        names := names + [table[i].name];
      }
      assert table[..|table|] == table;
    }

    /** Handles one line. */
    method ProtoLine(table: seq<Command>, e: Event) returns (r: Reaction)
      requires Valid() && WellPlaced(table)
      modifies this
      ensures Valid() && r == React(table, old(View()), e.line) && View() == Step(table, old(View()), e)
    {
      hide Trim, NameEnd, FindCmd, ParseArgs;
      ghost var s := View();
      var at := SkipSpace(e.line, 0);
      assert e.line[0..] == e.line;
      var end := ValName(e.line, at);
      ghost var t := e.line[at..];
      assert e.line[at..end] == t[..end - at] && e.line[end..] == t[end - at..];
      if at == end { return NoCommand; }
      var cmd := CmdFind(table, pstate, e.line[at..end]);
      if cmd.None? { return Unknown; }
      var perm := if user.Some? then user.value.right else ANY;
      if perm < cmd.value.perm { return Forbidden; }
      var args := CmdParse(cmd.value.args, e.line[end..]);
      if !args.Good? { return BadArgs(args); }
      r := Runs(cmd.value, args.argv);
      StepConsistent(table, s, e);
      assert Placed(cmd.value);
      match cmd.value.run
      case RunUser => CmdUser(args.argv[0]);
      case RunPass => CmdPass(e, args.argv[0]);
      case RunOther =>
    }
  }

  /** All lines of a connection, whatever they are. */
  method Serve(table: seq<Command>, events: seq<Event>) returns (state: State, trace: seq<Reaction>)
    requires WellPlaced(table)
    ensures state == After(table, events) && Consistent(state) && |trace| == |events|
    ensures forall i :: 0 <= i < |events| && trace[i].Runs? && trace[i].cmd.context == In(Idle) ==>
      var s := After(table, events[..i]);
      s.user.Some? && trace[i].cmd.perm <= s.user.value.right
  {
    hide React, Step;
    var c := new Client();
    trace := [];
    assert events[..0] == [];
    for i := 0 to |events|
      invariant c.Valid() && c.View() == After(table, events[..i]) && |trace| == i
      invariant forall j :: 0 <= j < i ==> trace[j] == React(table, After(table, events[..j]), events[j].line)
    {
      assert events[..i + 1][..i] == events[..i];
      var r := c.ProtoLine(table, events[i]);
      trace := trace + [r];
    }
    assert events[..|events|] == events;
    forall j | 0 <= j < |events| { HandlersAreSafe(table, events[..j], events[j].line); }
    state := State(c.pstate, c.pdata, c.user);
  }
}
