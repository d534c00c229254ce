/** Why the arguments of a command are refused. */
module SessionArgs {
  import opened Text
  import opened Session

  /** The line starts with these arguments, each preceded by blanks; the rest of it is left. */
  ghost predicate Front(args: seq<Taker>, line: string, argv: seq<string>, rest: string)
  {
    if args == [] then line == rest && argv == []
    else
      && argv != []
      && exists w, more :: Leads(args[0], line, w, argv[0], more) && Front(args[1..], more, argv[1..], rest)
  }

  /** Some argument can be read there. */
  ghost predicate Readable(take: Taker, line: string) { exists w, a, rest :: Leads(take, line, w, a, rest) }

  lemma ReadableMeans(take: Taker, line: string)
    ensures Readable(take, line) <==> Trim(line) != "" && Reads(take, Trim(line))
  {
    hide Blank, Trim, Leads;
    if Readable(take, line) {
      var w, a, rest :| Leads(take, line, w, a, rest);
      LeadsReads(take, line, w, a, rest);
    }
    var s := Trim(line);
    if s != "" && Reads(take, s) { ReadsLeads(take, line, s, take(s)); }
  }

  /** What is left to parse behind the arguments read so far decides. */
  function Behind(argv: seq<string>, r: Args): Args
  {
    match r
    case Good(more) => Good(argv + more)
    case Invalid(k) => Invalid(|argv| + k)
    case bad => bad
  }

  lemma {:induction false} FrontParses(args: seq<Taker>, more: seq<Taker>, line: string,
                                       argv: seq<string>, rest: string)
    requires Front(args, line, argv, rest)
    ensures |argv| == |args| && ParseArgs(args + more, line, 0) == Behind(argv, ParseArgs(more, rest, 0))
    decreases |args|
  {
    hide Blank, Trim, Leads, Reads;
    if args == [] {
      assert args + more == more;
      if ParseArgs(more, rest, 0).Good? { assert [] + ParseArgs(more, rest, 0).argv == ParseArgs(more, rest, 0).argv; }
    } else {
      var w, next :| Leads(args[0], line, w, argv[0], next) && Front(args[1..], next, argv[1..], rest);
      LeadsReads(args[0], line, w, argv[0], next);
      TakesIt(args[0], line, w, argv[0], next);
      FrontParses(args[1..], more, next, argv[1..], rest);
      var all := args + more;
      assert all[1..] == args[1..] + more;
      ParseShift(all, next, 0);
      BehindOne(argv, ParseArgs(more, rest, 0));
    }
  }

  lemma BehindOne(argv: seq<string>, r: Args)
    requires argv != []
    ensures Behind(argv, r) == match Behind(argv[1..], r)
      case Good(more) => Good([argv[0]] + more)
      case Invalid(k) => Invalid(k + 1)
      case bad => bad
  {
    if r.Good? { assert argv + r.argv == [argv[0]] + (argv[1..] + r.argv); }
  }

  lemma FrontCons(args: seq<Taker>, line: string, w: string, a: string, more: string, argv: seq<string>, rest: string)
    requires args != [] && Leads(args[0], line, w, a, more) && Front(args[1..], more, argv, rest)
    ensures Front(args, line, [a] + argv, rest)
  {
    hide Leads;
    var all := [a] + argv;
    assert all[0] == a && all[1..] == argv;
  }

  /** Reads arguments as long as that works. */
  lemma {:induction false} LongestFront(args: seq<Taker>, line: string) returns (argv: seq<string>, rest: string)
    ensures |argv| <= |args| && Front(args[..|argv|], line, argv, rest)
    ensures |argv| < |args| ==> !Readable(args[|argv|], rest)
    decreases |args|
  {
    hide Leads;
    if args == [] || !Readable(args[0], line) {
      argv, rest := [], line;
    } else {
      var w, a, more :| Leads(args[0], line, w, a, more);
      var tail;
      tail, rest := LongestFront(args[1..], more);
      argv := [a] + tail;
      assert args[..|argv|][1..] == args[1..][..|tail|];
      FrontCons(args[..|argv|], line, w, a, more, tail, rest);
    }
  }

  /** The line starts with the first n arguments, and this is what is left of it. */
  ghost predicate Leaves(args: seq<Taker>, line: string, n: nat, rest: string)
    requires n <= |args|
  { exists argv :: Front(args[..n], line, argv, rest) }

  lemma LeavesParses(args: seq<Taker>, line: string, n: nat, rest: string)
    requires n <= |args| && Leaves(args, line, n, rest)
    ensures n == |args| && rest != "" ==> ParseArgs(args, line, 0) == TooMany
    ensures n < |args| && AllSpace(rest) ==> ParseArgs(args, line, 0) == Missing
    ensures n < |args| && !AllSpace(rest) && !Readable(args[n], rest) ==> ParseArgs(args, line, 0) == Invalid(n)
  {
    hide Front;
    var argv :| Front(args[..n], line, argv, rest);
    assert args[..n] + args[n..] == args;
    FrontParses(args[..n], args[n..], line, argv, rest);
    BlankIsEmpty(rest);
    if n < |args| { ReadableMeans(args[n], rest); }
  }

  lemma BlankIsEmpty(s: string)
    ensures Trim(s) == "" <==> AllSpace(s)
  {
    hide Blank;
    if AllSpace(s) {
      BlankSplit(s, "");
      assert s + "" == s;
    } else {
      Split(s, Blank(s));
      assert s[..Blank(s)] + "" == s[..Blank(s)];
    }
  }

  /**
   The three errors: arguments are missing exactly if only blanks are left although not all were read; there are
   too many exactly if something, be it a blank, is left behind the last; and argument i is invalid exactly if
   what is left in front of it is neither blank nor starts with such an argument.
   */
  lemma ErrorsExact(args: seq<Taker>, line: string)
    ensures ParseArgs(args, line, 0) == Missing <==>
      exists n: nat, rest :: n < |args| && Leaves(args, line, n, rest) && AllSpace(rest)
    ensures ParseArgs(args, line, 0) == TooMany <==> exists rest :: Leaves(args, line, |args|, rest) && rest != ""
    ensures forall i: nat :: ParseArgs(args, line, 0) == Invalid(i) <==>
      i < |args| && exists rest :: Leaves(args, line, i, rest) && !AllSpace(rest) && !Readable(args[i], rest)
  {
    hide ParseArgs, Leaves, Readable, AllSpace;
    forall n: nat, rest | n <= |args| && Leaves(args, line, n, rest) { LeavesParses(args, line, n, rest); }
    var argv, rest := LongestFront(args, line);
    FrontLeaves(args, line, argv, rest);
    if |argv| == |args| && rest == "" { FrontIsSeparated(args, line, argv); }
  }

  lemma FrontLeaves(args: seq<Taker>, line: string, argv: seq<string>, rest: string)
    requires |argv| <= |args| && Front(args[..|argv|], line, argv, rest)
    ensures Leaves(args, line, |argv|, rest)
  {}

  lemma FrontIsSeparated(args: seq<Taker>, line: string, argv: seq<string>)
    requires |argv| == |args| && Front(args[..|argv|], line, argv, "")
    ensures ParseArgs(args, line, 0) == Good(argv)
  {
    hide Front;
    assert args[..|argv|] + [] == args;
    FrontParses(args[..|argv|], [], line, argv, "");
  }
}
