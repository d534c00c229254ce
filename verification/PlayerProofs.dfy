/** What every run of the player keeps, and exactly which steps break what clients believe. */
module PlayerProofs {
  import opened Text
  import opened Player

  // ----- what clients believe -----

  /** The status a client infers from the broadcasts it heard. */
  function Believed(heard: seq<Note>): Status
  {
    if heard == [] then Stop else
      match heard[|heard| - 1]
      case NewTrack => Play
      case ResumeNote => Play
      case PauseNote => Pause
      case StopNote => Stop
  }

  lemma BelievedAfter(heard: seq<Note>, n: Note)
    ensures Believed(heard + [n]) == match n
      case NewTrack => Play
      case ResumeNote => Play
      case PauseNote => Pause
      case StopNote => Stop
  {}

  /**
   Clients are right about the status; a pending gap means no track and an idle pipe; the elapsed timer
   runs exactly while the pipe plays; the pipe is in use exactly while there is a track.
   */
  predicate Coherent(s: State)
  {
    && Believed(s.heard) == StatusOf(s)
    && (s.gapTimer ==> s.cur == None && s.pipe == Idle)
    && (s.elapsedTimer <==> s.pipe == Playing)
    && (s.cur.Some? <==> s.pipe != Idle)
    && (s.cur == None ==> s.uid == 0)
  }

  /** The track a start would take up, with the user it counts for. */
  function Chosen(queue: seq<Entry>, doRandom: bool, w: World): Option<Entry>
  {
    var k, j := Skipped(queue, w.readable), SkippedPicks(w.picks, w.readable);
    if k < |queue| then Some(queue[k])
    else if doRandom then if j < |w.picks| then Some(Entry(w.picks[j], 0)) else None
    else if queue != [] then Some(Entry(queue[|queue| - 1].track, 0))
    else None
  }

  /** A start is harmless unless the pipeline gets ready for a track but then fails to play it. */
  predicate HarmlessStart(s: State, w: World)
  { w.play || !w.preroll || Chosen(s.queue, s.doRandom, w).None? }

  /** Stopping works unless the pipe is in use and refuses. */
  predicate HarmlessFinish(s: State, w: World) { w.halt || s.pipe == Idle }

  /** The steps after which clients are still right. */
  predicate Benign(s: State, ev: Event, w: World)
  {
    match ev
    case StartCmd =>
      (match StatusOf(s)
       case Play => true
       case Pause => w.play || w.halt
       case Stop => HarmlessStart(s, w))
    case StopCmd => HarmlessFinish(s, w)
    case NextCmd => HarmlessFinish(s, w) && HarmlessStart(s, w)
    case PauseCmd => s.gapTimer || s.pipe != Playing || w.pause || w.halt
    case EndOfStream => HarmlessFinish(s, w) && if s.gap != 0 then StatusOf(s) == Play else HarmlessStart(s, w)
    case PipeError => HarmlessFinish(s, w)
    case GapTimeout => !s.gapTimer || HarmlessStart(s, w)
    case _ => true
  }

  lemma StartFrom(s: State, w: World)
    requires s.cur == None && !s.gapTimer && !s.elapsedTimer && s.uid == 0
    ensures Coherent(BpStart(s, w)) <==> s.pipe == Idle && HarmlessStart(s, w)
  {
    BelievedAfter(s.heard, StopNote);
    BelievedAfter(s.heard, NewTrack);
  }

  lemma FinishFrom(s: State, complete: bool, w: World)
    requires Coherent(s)
    ensures var s1 := BpFinish(s, complete, w);
      && s1.queue == s.queue && s1.doRandom == s.doRandom && s1.heard == s.heard
      && s1.cur == None && s1.uid == 0 && !s1.gapTimer && !s1.elapsedTimer
      && (s1.pipe == Idle <==> HarmlessFinish(s, w))
  {}

  /** Exactly the benign steps keep the player coherent. */
  lemma StepCoherent(s: State, ev: Event, w: World)
    requires Coherent(s)
    ensures Coherent(Step(s, ev, w)) <==> Benign(s, ev, w)
  {
    hide BpStart, BpFinish, Chosen, Believed;
    BelievedAfter(s.heard, StopNote);
    BelievedAfter(s.heard, NewTrack);
    BelievedAfter(s.heard, ResumeNote);
    BelievedAfter(s.heard, PauseNote);
    FinishFrom(s, true, w);
    FinishFrom(s, false, w);
    StartFrom(BpFinish(s, true, w), w);
    if s.gapTimer { StartFrom(s.(gapTimer := false), w); }
    if StatusOf(s) == Stop { StartFrom(s, w); }
  }

  predicate AllBenign(s: State, moves: seq<Move>)
    decreases |moves|
  {
    moves != [] ==>
      Benign(s, moves[0].ev, moves[0].world) && AllBenign(Step(s, moves[0].ev, moves[0].world), moves[1..])
  }

  lemma {:induction false} RunSplit(s: State, moves: seq<Move>, i: nat)
    requires 0 < i <= |moves|
    ensures Run(s, moves[..i]) == Run(Step(s, moves[0].ev, moves[0].world), moves[1..][..i - 1])
  {
    assert moves[..i][1..] == moves[1..][..i - 1];
  }

  /** Over whole runs: clients are right after every prefix if and only if every step is benign. */
  lemma {:induction false} RunCoherent(s: State, moves: seq<Move>)
    requires Coherent(s)
    ensures (forall i :: 0 <= i <= |moves| ==> Coherent(Run(s, moves[..i]))) <==> AllBenign(s, moves)
    decreases |moves|
  {
    if moves == [] {
      assert moves[..0] == [];
    } else {
      var s1 := Step(s, moves[0].ev, moves[0].world);
      StepCoherent(s, moves[0].ev, moves[0].world);
      assert moves[..1] == [moves[0]] && Run(s, moves[..1]) == s1 by {
        RunSplit(s, moves, 1);
        assert moves[1..][..0] == [];
      }
      assert moves[..0] == [];
      if Benign(s, moves[0].ev, moves[0].world) {
        RunCoherent(s1, moves[1..]);
        forall i | 0 < i <= |moves| ensures Run(s, moves[..i]) == Run(s1, moves[1..][..i - 1]) {
          RunSplit(s, moves, i);
        }
        if forall i :: 0 <= i <= |moves| ==> Coherent(Run(s, moves[..i])) {
          forall i | 0 <= i <= |moves[1..]| ensures Coherent(Run(s1, moves[1..][..i])) {
            RunSplit(s, moves, i + 1);
          }
        }
      } else {
        assert !Coherent(Run(s, moves[..1]));
      }
    }
  }

  /** A player that could not start its track looks paused, while clients were told that it stopped. */
  lemma FailedStartMisleads(track: int)
    ensures var s := Step(Init(true, 0, []), StartCmd, World({track}, [track], true, false, true, true));
      StatusOf(s) == Pause && Believed(s.heard) == Stop && s.cur == None
      && s.history == [Played(track, 0, false)]
  {
    var w := World({track}, [track], true, false, true, true);
    var s := Init(true, 0, []);
    assert Skipped(s.queue, w.readable) == 0 && SkippedPicks(w.picks, w.readable) == 0;
  }

  // ----- the history is complete -----

  function Entries(h: seq<Played>): seq<Entry>
  { seq(|h|, i requires 0 <= i < |h| => Entry(h[i].track, h[i].uid)) }

  function Current(s: State): seq<Entry> { if s.cur.Some? then [Entry(s.cur.value, s.uid)] else [] }

  /** Every track accepted for playing is in the history once, with its user, or is the current one. */
  predicate Conserved(s: State) { s.accepted == Entries(s.history) + Current(s) }

  /** Holds in every run, whatever the pipeline does. */
  predicate Loose(s: State)
  {
    && (s.cur.Some? ==> s.pipe != Idle)
    && (s.gapTimer ==> s.cur == None)
    && (s.cur == None ==> s.uid == 0)
  }

  lemma StartLoose(s: State, w: World)
    requires Loose(s)
    ensures Loose(BpStart(s, w))
  {
    hide Skipped, SkippedPicks;
  }

  lemma StepLoose(s: State, ev: Event, w: World)
    requires Loose(s)
    ensures Loose(Step(s, ev, w))
  {
    hide BpStart;
    var s1 := BpFinish(s, true, w);
    assert Loose(s1) && Loose(BpFinish(s, false, w));
    StartLoose(s, w);
    StartLoose(s1, w);
    StartLoose(s.(gapTimer := false), w);
  }

  /** Whether a step asks for the next track. */
  predicate Starts(s: State, ev: Event, w: World)
  {
    match ev
    case StartCmd => StatusOf(s) == Stop
    case NextCmd => HarmlessFinish(s, w)
    case EndOfStream => s.gap == 0 && HarmlessFinish(s, w)
    case GapTimeout => s.gapTimer && s.pipe == Idle
    case _ => false
  }

  /** Nothing in the queue can be played and random is off: the last queued track is left behind. */
  predicate LeavesTrack(s: State, w: World)
  { !s.doRandom && s.queue != [] && Skipped(s.queue, w.readable) == |s.queue| }

  lemma FinishConserves(s: State, completed: bool)
    requires Conserved(s)
    ensures Conserved(DbFinish(s, completed))
  {
    if s.cur.Some? {
      var p := Played(s.cur.value, s.uid, completed);
      assert Entries(s.history + [p]) == Entries(s.history) + [Entry(p.track, p.uid)];
      assert Entries(s.history + [p]) + [] == Entries(s.history + [p]);
    }
  }

  lemma StartConserves(s: State, w: World)
    requires Loose(s) && Conserved(s) && StatusOf(s) == Stop
    ensures Conserved(BpStart(s, w)) <==> !LeavesTrack(s, w)
  {
    var s1 := DbGetNext(s, w);
    assert s.cur == None && s.accepted == Entries(s.history);
    assert |Entries(s1.history) + Current(s1)| == |s.accepted| + if s1.cur.Some? then 1 else 0;
    if !LeavesTrack(s, w) {
      assert Conserved(s1);
      FinishConserves(s1.(pipe := Paused), false);
      FinishConserves(s1, false);
    } else {
      var s2 := BpStart(s, w);
      assert |Entries(s2.history) + Current(s2)| == |s2.accepted| + 1;
    }
  }

  lemma StartMayConserve(s: State, w: World)
    requires Loose(s) && Conserved(s)
    ensures Conserved(BpStart(s, w)) <==> !(StatusOf(s) == Stop && LeavesTrack(s, w))
  {
    if StatusOf(s) == Stop { StartConserves(s, w); }
  }

  lemma FinishLoose(s: State, complete: bool, w: World)
    requires Loose(s) && Conserved(s)
    ensures var s1 := BpFinish(s, complete, w);
      && Conserved(s1) && Loose(s1) && s1.queue == s.queue && s1.doRandom == s.doRandom
      && (StatusOf(s1) == Stop <==> HarmlessFinish(s, w))
  {
    var s1 := s.(elapsedTimer := false, gapTimer := false);
    FinishConserves(s1, false);
    FinishConserves(s1.(pipe := Idle), complete);
  }

  lemma SameLeaves(s: State, s': State, w: World)
    requires s'.queue == s.queue && s'.doRandom == s.doRandom
    ensures LeavesTrack(s', w) == LeavesTrack(s, w)
  {}

  /** Starting over: what was played is recorded, and then the next track is taken. */
  lemma RestartConserves(s: State, w: World)
    requires Loose(s) && Conserved(s)
    ensures Conserved(BpStart(BpFinish(s, true, w), w)) <==> !(HarmlessFinish(s, w) && LeavesTrack(s, w))
  {
    hide BpStart, BpFinish, LeavesTrack, Conserved, Loose, HarmlessFinish, StatusOf;
    FinishLoose(s, true, w);
    StartMayConserve(BpFinish(s, true, w), w);
    SameLeaves(s, BpFinish(s, true, w), w);
  }

  /** Notes and the gap timer have no part in the history. */
  lemma SameHistory(s: State, s': State)
    requires s'.accepted == s.accepted && s'.history == s.history && s'.cur == s.cur && s'.uid == s.uid
    ensures Conserved(s') == Conserved(s)
  {}

  lemma StartCmdConserves(s: State, w: World)
    requires Loose(s) && Conserved(s)
    ensures Conserved(Step(s, StartCmd, w)) <==> !(StatusOf(s) == Stop && LeavesTrack(s, w))
  {
    hide BpStart, BpFinish, LeavesTrack, Conserved;
    FinishLoose(s, false, w);
    StartMayConserve(s, w);
    if StatusOf(s) == Pause { SameHistory(if w.play then s else BpFinish(s, false, w), BpResume(s, w)); }
  }

  lemma PauseConserves(s: State, w: World)
    requires Loose(s) && Conserved(s)
    ensures Conserved(BpPause(s, w))
  {
    hide BpFinish, Conserved;
    FinishLoose(s, false, w);
    var f := BpFinish(s, false, w);
    SameHistory(f, Tell(f, StopNote));
    if s.gapTimer || s.pipe != Playing || w.pause { SameHistory(s, BpPause(s, w)); }
  }

  lemma EndConserves(s: State, w: World)
    requires Loose(s) && Conserved(s)
    ensures Conserved(Step(s, EndOfStream, w)) <==> !(s.gap == 0 && HarmlessFinish(s, w) && LeavesTrack(s, w))
  {
    hide BpStart, BpFinish, LeavesTrack, Conserved, HarmlessFinish;
    FinishLoose(s, true, w);
    RestartConserves(s, w);
    var f := BpFinish(s, true, w);
    SameHistory(f, f.(gapTimer := true));
  }

  lemma StopsConserve(s: State, complete: bool, w: World)
    requires Loose(s) && Conserved(s)
    ensures Conserved(Tell(BpFinish(s, complete, w), StopNote))
  {
    hide BpFinish, Conserved;
    FinishLoose(s, complete, w);
    SameHistory(BpFinish(s, complete, w), Tell(BpFinish(s, complete, w), StopNote));
  }

  /** A step conserves the history, even if the pipeline fails, unless it takes up a track left behind. */
  lemma StepConserves(s: State, ev: Event, w: World)
    requires Loose(s) && Conserved(s)
    ensures Conserved(Step(s, ev, w)) <==> !(Starts(s, ev, w) && LeavesTrack(s, w))
  {
    hide BpStart, BpFinish, BpPause, BpResume, LeavesTrack, Conserved, HarmlessFinish;
    match ev
    case StartCmd => StartCmdConserves(s, w);
    case StopCmd => StopsConserve(s, true, w);
    case NextCmd => RestartConserves(s, w);
    case PauseCmd => PauseConserves(s, w);
    case EndOfStream => EndConserves(s, w);
    case PipeError => StopsConserve(s, false, w);
    case GapTimeout =>
      var s' := s.(gapTimer := false);
      SameHistory(s, s');
      SameLeaves(s, s', w);
      StartMayConserve(s', w);
    case _ => SameHistory(s, Step(s, ev, w));
  }

  predicate NeverLeavesTrack(s: State, moves: seq<Move>)
    decreases |moves|
  {
    moves != [] ==>
      && !(Starts(s, moves[0].ev, moves[0].world) && LeavesTrack(s, moves[0].world))
      && NeverLeavesTrack(Step(s, moves[0].ev, moves[0].world), moves[1..])
  }

  /** Over whole runs, with any pipeline failures: conserved throughout iff no track is left behind. */
  lemma {:induction false} RunConserves(s: State, moves: seq<Move>)
    requires Loose(s) && Conserved(s)
    ensures (forall i :: 0 <= i <= |moves| ==> Conserved(Run(s, moves[..i]))) <==> NeverLeavesTrack(s, moves)
    decreases |moves|
  {
    assert moves[..0] == [];
    if moves != [] {
      var s1 := Step(s, moves[0].ev, moves[0].world);
      StepLoose(s, moves[0].ev, moves[0].world);
      StepConserves(s, moves[0].ev, moves[0].world);
      RunSplit(s, moves, 1);
      assert moves[1..][..0] == [] && Run(s, moves[..1]) == s1;
      if Conserved(s1) {
        RunConserves(s1, moves[1..]);
        forall i | 0 < i <= |moves| ensures Run(s, moves[..i]) == Run(s1, moves[1..][..i - 1]) {
          RunSplit(s, moves, i);
        }
        if forall i :: 0 <= i <= |moves| ==> Conserved(Run(s, moves[..i])) {
          forall i | 0 <= i <= |moves[1..]| ensures Conserved(Run(s1, moves[1..][..i])) {
            RunSplit(s, moves, i + 1);
          }
        }
      }
    }
  }

  /** A queued track that cannot be played is left behind, and is played although it was never accepted. */
  lemma UnplayableTrackIsLeft(track: int, uid: int)
    ensures var s := Step(Init(false, 0, [Entry(track, uid)]), StartCmd, World({}, [], true, true, true, true));
      !Conserved(s) && s.accepted == [] && s.cur == Some(track) && s.pipe == Playing && s.heard == [NewTrack]
  {
    var (s, w) := (Init(false, 0, [Entry(track, uid)]), World({}, [], true, true, true, true));
    assert Skipped(s.queue, w.readable) == 1 + Skipped(s.queue[1..], w.readable) == 1;
    assert |Entries([]) + Current(Step(s, StartCmd, w))| == 1;
  }

  // ----- every run of the player starts here -----

  /** From the initial state: coherent throughout if and only if every step is benign. */
  lemma ReachableCoherent(doRandom: bool, gap: int, queue: seq<Entry>, moves: seq<Move>)
    ensures var s := Init(doRandom, gap, queue);
      (forall i :: 0 <= i <= |moves| ==> Coherent(Run(s, moves[..i]))) <==> AllBenign(s, moves)
  {
    hide Run, AllBenign;
    RunCoherent(Init(doRandom, gap, queue), moves);
  }

  /** From the initial state: conserved throughout if and only if no track is left behind. */
  lemma ReachableConserved(doRandom: bool, gap: int, queue: seq<Entry>, moves: seq<Move>)
    ensures var s := Init(doRandom, gap, queue);
      (forall i :: 0 <= i <= |moves| ==> Conserved(Run(s, moves[..i]))) <==> NeverLeavesTrack(s, moves)
  {
    hide Run, NeverLeavesTrack;
    var s := Init(doRandom, gap, queue);
    assert Entries(s.history) + Current(s) == [];
    RunConserves(s, moves);
  }

  // ----- which track is next -----

  /** The first playable entry of the queue wins; only the entries in front of it are dropped. */
  lemma {:induction false} QueueSelection(q: seq<Entry>, readable: set<int>)
    ensures var k := Skipped(q, readable);
      && (forall i :: 0 <= i < k ==> q[i].track !in readable)
      && (k < |q| ==> q[k].track in readable)
  {
    if q != [] && q[0].track !in readable {
      QueueSelection(q[1..], readable);
      assert forall i :: 0 < i < |q| ==> q[i] == q[1..][i - 1];
    }
  }

  lemma {:induction false} PickSelection(picks: seq<int>, readable: set<int>)
    ensures var k := SkippedPicks(picks, readable);
      && (forall i :: 0 <= i < k ==> picks[i] !in readable)
      && (k < |picks| ==> picks[k] in readable)
  {
    if picks != [] && picks[0] !in readable {
      PickSelection(picks[1..], readable);
      assert forall i :: 0 < i < |picks| ==> picks[i] == picks[1..][i - 1];
    }
  }

  predicate FirstReadable(tracks: seq<int>, readable: set<int>, i: int)
  { 0 <= i < |tracks| && tracks[i] in readable && forall j :: 0 <= j < i ==> tracks[j] !in readable }

  predicate NoneReadable(tracks: seq<int>, readable: set<int>)
  { forall j :: 0 <= j < |tracks| ==> tracks[j] !in readable }

  function Tracks(q: seq<Entry>): seq<int> { seq(|q|, i requires 0 <= i < |q| => q[i].track) }

  /**
   The next track is the first playable one of the queue, for the user who asked for it. Random selection
   has a say only if nothing in the queue can be played, and counts for no user.
   */
  lemma TrackSelection(s: State, w: World, i: int)
    requires s.cur == None
    ensures var s1 := DbGetNext(s, w);
      && (FirstReadable(Tracks(s.queue), w.readable, i) ==>
            s1.cur == Some(s.queue[i].track) && s1.uid == s.queue[i].uid && s1.queue == s.queue[i + 1..])
      && (NoneReadable(Tracks(s.queue), w.readable) ==> s1.queue == [] && s1.uid == 0)
      && (NoneReadable(Tracks(s.queue), w.readable) && s.doRandom ==>
            && (FirstReadable(w.picks, w.readable, i) ==> s1.cur == Some(w.picks[i]))
            && (NoneReadable(w.picks, w.readable) ==> s1.cur == None))
  {
    hide Skipped, SkippedPicks;
    QueueSelection(s.queue, w.readable);
    PickSelection(w.picks, w.readable);
    var k := Skipped(s.queue, w.readable);
    assert forall j :: 0 <= j < |s.queue| ==> Tracks(s.queue)[j] == s.queue[j].track;
    if FirstReadable(Tracks(s.queue), w.readable, i) {
      assert s.queue[i].track == Tracks(s.queue)[i];
      assert k == i;
    }
  }

  // ----- the player refines a simple one -----

  /** The reference player: nothing but a mode, what is queued and what was played. */
  datatype Mode = Stopped | InGap | On(e: Entry) | Held(e: Entry)

  datatype Simple = Simple(mode: Mode, queue: seq<Entry>, doRandom: bool, gap: int, history: seq<Played>)

  function Simplify(s: State): Simple
  {
    var mode := if s.cur.Some? then var e := Entry(s.cur.value, s.uid); if s.pipe == Playing then On(e) else Held(e)
                else if s.gapTimer then InGap else Stopped;
    Simple(mode, s.queue, s.doRandom, s.gap, s.history)
  }

  function Finish(a: Simple, completed: bool): Simple
  {
    match a.mode
    case On(e) => a.(mode := Stopped, history := a.history + [Played(e.track, e.uid, completed)])
    case Held(e) => a.(mode := Stopped, history := a.history + [Played(e.track, e.uid, completed)])
    case _ => a.(mode := Stopped)
  }

  function Begin(a: Simple, w: World): Simple
  {
    var k := Skipped(a.queue, w.readable);
    var a1 := a.(mode := Stopped, queue := if k < |a.queue| then a.queue[k + 1..] else []);
    match Chosen(a.queue, a.doRandom, w)
    case None => a1
    case Some(e) => if w.play then a1.(mode := On(e)) else Finish(a1.(mode := On(e)), false)
  }

  function SimpleStep(a: Simple, ev: Event, w: World): Simple
  {
    match (ev, a.mode)
    case (StartCmd, Stopped) => Begin(a, w)
    case (StartCmd, Held(e)) => if w.play then a.(mode := On(e)) else Finish(a, false)
    case (StartCmd, _) => a
    case (StopCmd, _) => Finish(a, true)
    case (NextCmd, _) => Begin(Finish(a, true), w)
    case (PauseCmd, On(e)) => if w.pause then a.(mode := Held(e)) else Finish(a, false)
    case (PauseCmd, InGap) => a.(mode := Stopped)
    case (PauseCmd, _) => a
    case (EndOfStream, _) => if a.gap != 0 then Finish(a, true).(mode := InGap) else Begin(Finish(a, true), w)
    case (PipeError, _) => Finish(a, false)
    case (GapTimeout, InGap) => Begin(a, w)
    case (GapTimeout, _) => a
    case (SetGap(g), _) => a.(gap := g)
    case (SetRandom(on), _) => a.(doRandom := on)
    case (Enqueue(e), _) => a.(queue := a.queue + [e])
  }

  lemma StartRefines(s: State, w: World)
    requires s.cur == None && s.pipe == Idle && !s.gapTimer && HarmlessStart(s, w)
    ensures Simplify(BpStart(s, w)) == Begin(Simplify(s), w)
  {
    hide Skipped, SkippedPicks;
  }

  lemma FinishRefines(s: State, complete: bool, w: World)
    requires Coherent(s) && HarmlessFinish(s, w)
    ensures Simplify(BpFinish(s, complete, w)) == Finish(Simplify(s), complete)
  {}

  /** In benign steps the player does exactly what the reference player does. */
  lemma StepRefines(s: State, ev: Event, w: World)
    requires Coherent(s) && Benign(s, ev, w)
    ensures Simplify(Step(s, ev, w)) == SimpleStep(Simplify(s), ev, w)
  {
    hide BpStart, BpFinish, Begin, HarmlessStart, Believed;
    match ev
    case StartCmd =>
      if StatusOf(s) == Stop { StartRefines(s, w); }
      if StatusOf(s) == Pause && !w.play { FinishRefines(s, false, w); }
    case StopCmd => FinishRefines(s, true, w);
    case NextCmd => RestartRefines(s, w);
    case PauseCmd =>
      if !s.gapTimer && s.pipe == Playing && !w.pause { FinishRefines(s, false, w); }
    case EndOfStream =>
      FinishRefines(s, true, w);
      FinishFrom(s, true, w);
      if s.gap == 0 { RestartRefines(s, w); }
    case PipeError => FinishRefines(s, false, w);
    case GapTimeout =>
      if s.gapTimer {
        SameStart(s, s.(gapTimer := false), w);
        StartRefines(s.(gapTimer := false), w);
        BeginMode(Simplify(s), w);
      }
    case _ =>
  }

  lemma RestartRefines(s: State, w: World)
    requires Coherent(s) && HarmlessFinish(s, w) && HarmlessStart(s, w)
    ensures Simplify(BpStart(BpFinish(s, true, w), w)) == Begin(Finish(Simplify(s), true), w)
  {
    hide BpStart, BpFinish, Begin, HarmlessStart, Believed;
    var s1 := BpFinish(s, true, w);
    FinishFrom(s, true, w);
    FinishRefines(s, true, w);
    SameStart(s, s1, w);
    StartRefines(s1, w);
  }

  lemma SameStart(s: State, s': State, w: World)
    requires s.queue == s'.queue && s.doRandom == s'.doRandom
    ensures HarmlessStart(s, w) == HarmlessStart(s', w)
  {}

  lemma BeginMode(a: Simple, w: World)
    ensures Begin(a, w) == Begin(a.(mode := Stopped), w)
  {}

  function SimpleRun(a: Simple, moves: seq<Move>): Simple
    decreases |moves|
  { if moves == [] then a else SimpleRun(SimpleStep(a, moves[0].ev, moves[0].world), moves[1..]) }

  lemma {:induction false} RunRefines(s: State, moves: seq<Move>)
    requires Coherent(s) && AllBenign(s, moves)
    ensures Simplify(Run(s, moves)) == SimpleRun(Simplify(s), moves)
    decreases |moves|
  {
    if moves != [] {
      StepRefines(s, moves[0].ev, moves[0].world);
      StepCoherent(s, moves[0].ev, moves[0].world);
      RunRefines(Step(s, moves[0].ev, moves[0].world), moves[1..]);
    }
  }
}
