/**
 What a step does, effect by effect and in every state, whatever the pipeline answers: what clients are told,
 what goes into the history, and what becomes of the pipe, the timers and the queue.
 */
module PlayerEffects {
  import opened Text
  import opened Player
  import opened PlayerProofs

  /** The step gives up what is playing: clients ask for it, the pipeline reports it, or it refuses to go on. */
  predicate Ends(s: State, ev: Event, w: World)
  {
    match ev
    case StartCmd => StatusOf(s) == Pause && !w.play
    case StopCmd => StatusOf(s) != Stop
    case PauseCmd => StatusOf(s) == Play && !s.gapTimer && !w.pause
    case NextCmd => true
    case EndOfStream => true
    case PipeError => true
    case _ => false
  }

  predicate Resumes(s: State, ev: Event, w: World) { ev == StartCmd && StatusOf(s) == Pause && w.play }

  predicate Pauses(s: State, ev: Event, w: World)
  { ev == PauseCmd && StatusOf(s) == Play && !s.gapTimer && w.pause }

  /** A gap is over before its time. */
  predicate BreaksGap(s: State, ev: Event) { ev == PauseCmd && s.gapTimer }

  /** The entry a step takes up and plays. */
  function TakenUp(s: State, ev: Event, w: World): Option<Entry>
  { if Starts(s, ev, w) && w.play then Chosen(s.queue, s.doRandom, w) else None }

  /** The entry a step takes up but cannot play. */
  function TurnedDown(s: State, ev: Event, w: World): Option<Entry>
  { if Starts(s, ev, w) && !w.play then Chosen(s.queue, s.doRandom, w) else None }

  // ----- the two operations that steps are made of -----

  /** The next track is taken up, if there is one, and is played or recorded as a failure. */
  predicate Launched(s: State, s1: State, w: World)
  {
    var e := Chosen(s.queue, s.doRandom, w);
    var k := Skipped(s.queue, w.readable);
    && s1.heard == s.heard + [if w.play && e.Some? then NewTrack else StopNote]
    && s1.history == s.history + (if e.Some? && !w.play then [Played(e.value.track, e.value.uid, false)] else [])
    && s1.accepted == s.accepted + (if e.Some? && !LeavesTrack(s, w) then [e.value] else [])
    && Current(s1) == (if e.Some? && w.play then [e.value] else [])
    && s1.queue == (if k < |s.queue| then s.queue[k + 1..] else [])
    && s1.pipe == (if e.None? then Idle else if w.play then Playing else if w.preroll then Paused else Idle)
    && s1.elapsedTimer == (s.elapsedTimer || (w.play && e.Some?))
    && s1.gapTimer == s.gapTimer && s1.gap == s.gap && s1.doRandom == s.doRandom
  }

  lemma NextEffects(s: State, w: World)
    requires s.cur == None
    ensures var s1, e := DbGetNext(s, w), Chosen(s.queue, s.doRandom, w);
      var k := Skipped(s.queue, w.readable);
      && s1 == s.(cur := s1.cur, uid := s1.uid, queue := s1.queue, accepted := s1.accepted)
      && s1.accepted == s.accepted + (if e.Some? && !LeavesTrack(s, w) then [e.value] else [])
      && s1.queue == (if k < |s.queue| then s.queue[k + 1..] else [])
      && s1.cur == (if e.Some? then Some(e.value.track) else None) && (e.Some? ==> s1.uid == e.value.uid)
  {
    hide Skipped, SkippedPicks;
  }

  lemma StartEffects(s: State, w: World)
    requires Loose(s)
    ensures if StatusOf(s) == Stop then Launched(s, BpStart(s, w), w) else BpStart(s, w) == s
  {
    hide Skipped, Chosen, DbGetNext, LeavesTrack;
    if StatusOf(s) == Stop {
      NextEffects(s, w);
      assert s.history + [] == s.history;
    }
  }

  /** What the history gets when the current track is given up. */
  function Recorded(s: State, completed: bool): seq<Played>
  { if s.cur.Some? then [Played(s.cur.value, s.uid, completed)] else [] }

  lemma FinishEffects(s: State, complete: bool, w: World)
    requires Loose(s)
    ensures var s1 := BpFinish(s, complete, w);
      && s1 == s.(history := s.history + Recorded(s, complete && w.halt), cur := None, uid := 0,
                  pipe := if w.halt then Idle else s.pipe, gapTimer := false, elapsedTimer := false)
      && Loose(s1) && (StatusOf(s1) == Stop <==> HarmlessFinish(s, w))
  {
    if s.cur.None? { assert s.history + [] == s.history; }
  }

  lemma GapLoose(s: State)
    requires Loose(s)
    ensures Loose(s.(gapTimer := false))
  {}

  /** The state in which the next track is looked for, if it is. */
  function Between(s: State, ev: Event, w: World): State
  {
    if Ends(s, ev, w) then BpFinish(s, ev == StopCmd || ev == NextCmd || ev == EndOfStream, w)
    else if ev == GapTimeout then s.(gapTimer := false)
    else s
  }

  lemma BetweenIs(s: State, ev: Event, w: World)
    requires Loose(s)
    ensures var m := Between(s, ev, w);
      && Loose(m)
      && m == if Ends(s, ev, w) then
          s.(history := s.history + Recorded(s, Completes(ev, w)), cur := None, uid := 0,
             pipe := if w.halt then Idle else s.pipe, gapTimer := false, elapsedTimer := false)
        else s.(gapTimer := s.gapTimer && ev != GapTimeout)
  {
    hide BpFinish, Recorded;
    FinishEffects(s, true, w);
    FinishEffects(s, false, w);
  }

  /** A step starts a track behind what it gives up, or else leaves the tracks alone. */
  lemma StepStages(s: State, ev: Event, w: World)
    requires Loose(s)
    ensures var m, s1 := Between(s, ev, w), Step(s, ev, w);
      if Starts(s, ev, w) then Launched(m, s1, w) && m.pipe == Idle && m.queue == s.queue && m.doRandom == s.doRandom
      else s1 == m.(heard := s1.heard, pipe := s1.pipe, gapTimer := s1.gapTimer, elapsedTimer := s1.elapsedTimer,
                    gap := s1.gap, doRandom := s1.doRandom, queue := s1.queue)
  {
    hide BpStart, BpFinish, Launched, Recorded, Loose;
    match ev
    case StartCmd =>
      StartEffects(s, w);
      FinishEffects(s, false, w);
    case StopCmd => FinishEffects(s, true, w);
    case NextCmd =>
      FinishEffects(s, true, w);
      StartEffects(BpFinish(s, true, w), w);
    case PauseCmd => FinishEffects(s, false, w);
    case EndOfStream =>
      FinishEffects(s, true, w);
      StartEffects(BpFinish(s, true, w), w);
    case PipeError => FinishEffects(s, false, w);
    case GapTimeout =>
      GapLoose(s);
      StartEffects(s.(gapTimer := false), w);
    case _ =>
  }

  // ----- what clients are told -----

  /** Nothing more is played, and no other track is looked for. */
  predicate Stops(s: State, ev: Event, w: World)
  { BreaksGap(s, ev) || (Ends(s, ev, w) && ev != NextCmd && ev != EndOfStream) }

  function Told(s: State, ev: Event, w: World): seq<Note>
  {
    if Starts(s, ev, w) then [if TakenUp(s, ev, w).Some? then NewTrack else StopNote]
    else if Resumes(s, ev, w) then [ResumeNote]
    else if Pauses(s, ev, w) then [PauseNote]
    else if Stops(s, ev, w) then [StopNote]
    else []
  }

  /** A step that starts nothing tells about what it does, if anything. */
  lemma QuietTells(s: State, ev: Event, w: World)
    requires Loose(s) && !Starts(s, ev, w)
    ensures Step(s, ev, w).heard == s.heard + Told(s, ev, w)
  {
    hide BpStart, BpFinish, Launched, Recorded, Loose;
    assert s.heard + [] == s.heard;
    match ev
    case StartCmd =>
      StartEffects(s, w);
      FinishEffects(s, false, w);
    case StopCmd => FinishEffects(s, true, w);
    case NextCmd =>
      FinishEffects(s, true, w);
      StartEffects(BpFinish(s, true, w), w);
    case PauseCmd => FinishEffects(s, false, w);
    case EndOfStream =>
      FinishEffects(s, true, w);
      StartEffects(BpFinish(s, true, w), w);
    case PipeError => FinishEffects(s, false, w);
    case GapTimeout =>
      GapLoose(s);
      StartEffects(s.(gapTimer := false), w);
    case _ =>
  }

  /** What it does apart from giving up a track. */
  lemma QuietStep(s: State, ev: Event, w: World)
    requires Loose(s) && !Starts(s, ev, w)
    ensures var m, s1 := Between(s, ev, w), Step(s, ev, w);
      && s1.pipe == (if Resumes(s, ev, w) then Playing else if Pauses(s, ev, w) then Paused else m.pipe)
      && s1.gapTimer == ((m.gapTimer && !BreaksGap(s, ev)) || (ev == EndOfStream && s.gap != 0))
      && s1.elapsedTimer == (Resumes(s, ev, w) || (m.elapsedTimer && !Pauses(s, ev, w)))
      && s1.queue == s.queue + (if ev.Enqueue? then [ev.entry] else [])
      && s1.gap == (if ev.SetGap? then ev.gap else s.gap)
      && s1.doRandom == (if ev.SetRandom? then ev.on else s.doRandom)
  {
    hide BpStart, BpFinish, Launched, Recorded, Loose;
    assert s.queue + [] == s.queue;
    match ev
    case StartCmd =>
      StartEffects(s, w);
      FinishEffects(s, false, w);
    case StopCmd => FinishEffects(s, true, w);
    case NextCmd =>
      FinishEffects(s, true, w);
      StartEffects(BpFinish(s, true, w), w);
    case PauseCmd => FinishEffects(s, false, w);
    case EndOfStream =>
      FinishEffects(s, true, w);
      StartEffects(BpFinish(s, true, w), w);
    case PipeError => FinishEffects(s, false, w);
    case GapTimeout =>
      GapLoose(s);
      StartEffects(s.(gapTimer := false), w);
    case _ =>
  }

  /** Exactly one broadcast for what happened, and none if nothing did. */
  lemma StepTells(s: State, ev: Event, w: World)
    requires Loose(s)
    ensures Step(s, ev, w).heard == s.heard + Told(s, ev, w)
  {
    hide Step, Chosen, Skipped, Recorded, LeavesTrack, Between, Starts, Ends, Resumes, Pauses, Stops;
    BetweenIs(s, ev, w);
    StepStages(s, ev, w);
    if !Starts(s, ev, w) { QuietTells(s, ev, w); }
  }

  // ----- what goes into the history -----

  /** A track counts as completed if clients or its end finished it, and the pipeline could be halted. */
  predicate Completes(ev: Event, w: World) { w.halt && (ev == StopCmd || ev == NextCmd || ev == EndOfStream) }

  /** What was given up goes into the history, and then a track that could not be played, as a failure. */
  lemma StepRecords(s: State, ev: Event, w: World)
    requires Loose(s)
    ensures Step(s, ev, w).history == s.history
      + (if Ends(s, ev, w) then Recorded(s, Completes(ev, w)) else [])
      + (var e := TurnedDown(s, ev, w); if e.Some? then [Played(e.value.track, e.value.uid, false)] else [])
    ensures Current(Step(s, ev, w)) ==
      if TakenUp(s, ev, w).Some? then [TakenUp(s, ev, w).value]
      else if Ends(s, ev, w) || Starts(s, ev, w) then []
      else Current(s)
  {
    hide Step, Chosen, Skipped, LeavesTrack, Between, Recorded, Starts, Ends;
    BetweenIs(s, ev, w);
    StepStages(s, ev, w);
  }

  // ----- the pipe, the timers and the queue -----

  /** The pipe plays what is taken up or resumed, and is idle behind what is given up, unless it refuses. */
  lemma StepPipe(s: State, ev: Event, w: World)
    requires Loose(s)
    ensures Step(s, ev, w).pipe ==
      if TakenUp(s, ev, w).Some? || Resumes(s, ev, w) then Playing
      else if Pauses(s, ev, w) || (TurnedDown(s, ev, w).Some? && w.preroll) then Paused
      else if Starts(s, ev, w) || (Ends(s, ev, w) && w.halt) then Idle
      else s.pipe
  {
    hide Step, Chosen, Skipped, Recorded, LeavesTrack, Between, Loose;
    BetweenIs(s, ev, w);
    StepStages(s, ev, w);
    if !Starts(s, ev, w) { QuietStep(s, ev, w); }
  }

  /** The gap timer runs behind a track that ended, and the other timer while a track plays. */
  lemma StepTimers(s: State, ev: Event, w: World)
    requires Loose(s)
    ensures Step(s, ev, w).gapTimer ==
      if ev == EndOfStream then s.gap != 0
      else s.gapTimer && !Ends(s, ev, w) && !BreaksGap(s, ev) && ev != GapTimeout
    ensures Step(s, ev, w).elapsedTimer ==
      (TakenUp(s, ev, w).Some? || Resumes(s, ev, w) || (s.elapsedTimer && !Ends(s, ev, w) && !Pauses(s, ev, w)))
  {
    hide Step, Chosen, Skipped, Recorded, LeavesTrack, Between, Loose;
    BetweenIs(s, ev, w);
    StepStages(s, ev, w);
    if !Starts(s, ev, w) { QuietStep(s, ev, w); }
  }

  /** The queue grows at its end, and shrinks only when a track is looked for: up to the first that can be played. */
  lemma StepQueue(s: State, ev: Event, w: World)
    requires Loose(s)
    ensures var s1, k := Step(s, ev, w), Skipped(s.queue, w.readable);
      && s1.queue == (if !Starts(s, ev, w) then s.queue + (if ev.Enqueue? then [ev.entry] else [])
                      else if k < |s.queue| then s.queue[k + 1..] else [])
      && s1.gap == (if ev.SetGap? then ev.gap else s.gap)
      && s1.doRandom == (if ev.SetRandom? then ev.on else s.doRandom)
  {
    hide Step, Chosen, Skipped, Recorded, LeavesTrack, Between, Resumes, Pauses, BreaksGap, Loose;
    BetweenIs(s, ev, w);
    StepStages(s, ev, w);
    if !Starts(s, ev, w) { QuietStep(s, ev, w); }
  }

  // ----- the broadcasts in terms of the reference player -----

  predicate LooksForTrack(a: Simple, ev: Event)
  {
    match ev
    case StartCmd => a.mode == Stopped
    case NextCmd => true
    case EndOfStream => a.gap == 0
    case GapTimeout => a.mode == InGap
    case _ => false
  }

  /** What clients are told when the reference player goes from a to the mode b. */
  function Announced(a: Simple, ev: Event, b: Mode): seq<Note>
  {
    if LooksForTrack(a, ev) then [if b.On? then NewTrack else StopNote]
    else if a.mode.Held? && b.On? then [ResumeNote]
    else if a.mode.On? && b.Held? then [PauseNote]
    else if b == Stopped && (a.mode != Stopped || ev == PipeError) then [StopNote]
    else []
  }

  lemma CoherentIsLoose(s: State)
    requires Coherent(s)
    ensures Loose(s)
  {}

  /** In benign steps clients are told how the mode of the reference player changes. */
  lemma ModesTell(s: State, ev: Event, w: World)
    requires Coherent(s) && Benign(s, ev, w)
    ensures var a := Simplify(s);
      Step(s, ev, w).heard == s.heard + Announced(a, ev, SimpleStep(a, ev, w).mode)
  {
    hide Step, Believed, Skipped, SkippedPicks, Chosen;
    CoherentIsLoose(s);
    StepTells(s, ev, w);
  }

  // ----- over whole runs -----

  function Times(n: Note, heard: seq<Note>): nat { multiset(heard)[n] }

  /** The entries that began to play, in order. */
  function BegunIn(s: State, moves: seq<Move>): seq<Entry>
    decreases |moves|
  {
    if moves == [] then [] else
      var e := TakenUp(s, moves[0].ev, moves[0].world);
      (if e.Some? then [e.value] else []) + BegunIn(Step(s, moves[0].ev, moves[0].world), moves[1..])
  }

  lemma TimesMore(n: Note, heard: seq<Note>, more: seq<Note>)
    ensures Times(n, heard + more) == Times(n, heard) + Times(n, more)
  {}

  /** Over every run there are as many announcements of a new track as entries that began to play. */
  lemma {:induction false} RunTells(s: State, moves: seq<Move>)
    requires Loose(s)
    ensures Times(NewTrack, Run(s, moves).heard) == Times(NewTrack, s.heard) + |BegunIn(s, moves)|
    decreases |moves|
  {
    hide Step, Loose, Times, Starts, Resumes, Pauses, Stops, Chosen;
    if moves != [] {
      var ev, w := moves[0].ev, moves[0].world;
      StepTells(s, ev, w);
      StepLoose(s, ev, w);
      TimesMore(NewTrack, s.heard, Told(s, ev, w));
      OneNote(s, ev, w);
      RunTells(Step(s, ev, w), moves[1..]);
    }
  }

  lemma OneNote(s: State, ev: Event, w: World)
    ensures Times(NewTrack, Told(s, ev, w)) == if TakenUp(s, ev, w).Some? then 1 else 0
  {
    hide Starts, Resumes, Pauses, Stops, Chosen;
  }

  /** Every track that is or was played was announced, and nothing else. */
  predicate AllAnnounced(s: State) { Times(NewTrack, s.heard) == |s.history| + |Current(s)| }

  /** That is kept by exactly the steps that do not take up a track they cannot play. */
  lemma StepAnnounces(s: State, ev: Event, w: World)
    requires Loose(s) && AllAnnounced(s)
    ensures AllAnnounced(Step(s, ev, w)) <==> TurnedDown(s, ev, w) == None
  {
    hide Step, Chosen, Starts, Resumes, Pauses, Stops;
    StepTells(s, ev, w);
    StepRecords(s, ev, w);
    TimesMore(NewTrack, s.heard, Told(s, ev, w));
    OneNote(s, ev, w);
    if Starts(s, ev, w) { StartsAfresh(s, ev, w); }
  }

  /** A step that looks for a track has given up the one before. */
  lemma StartsAfresh(s: State, ev: Event, w: World)
    requires Loose(s) && Starts(s, ev, w)
    ensures Ends(s, ev, w) || s.cur == None
  {}

  predicate NeverTurnsDown(s: State, moves: seq<Move>)
    decreases |moves|
  {
    moves != [] ==>
      && TurnedDown(s, moves[0].ev, moves[0].world) == None
      && NeverTurnsDown(Step(s, moves[0].ev, moves[0].world), moves[1..])
  }

  /** Over whole runs: after every prefix all is announced if and only if no track is taken up that cannot play. */
  lemma {:induction false} RunAnnounces(s: State, moves: seq<Move>)
    requires Loose(s) && AllAnnounced(s)
    ensures (forall i :: 0 <= i <= |moves| ==> AllAnnounced(Run(s, moves[..i]))) <==> NeverTurnsDown(s, moves)
    decreases |moves|
  {
    hide Step, Loose, AllAnnounced, TurnedDown;
    assert moves[..0] == [];
    if moves != [] {
      var s1 := Step(s, moves[0].ev, moves[0].world);
      StepLoose(s, moves[0].ev, moves[0].world);
      StepAnnounces(s, moves[0].ev, moves[0].world);
      RunSplit(s, moves, 1);
      assert moves[1..][..0] == [] && Run(s, moves[..1]) == s1;
      if AllAnnounced(s1) {
        RunAnnounces(s1, moves[1..]);
        forall i | 0 < i <= |moves| ensures Run(s, moves[..i]) == Run(s1, moves[1..][..i - 1]) {
          RunSplit(s, moves, i);
        }
        if forall i :: 0 <= i <= |moves| ==> AllAnnounced(Run(s, moves[..i])) {
          forall i | 0 <= i <= |moves[1..]| ensures AllAnnounced(Run(s1, moves[1..][..i])) {
            RunSplit(s, moves, i + 1);
          }
        }
      }
    }
  }

  /** From the initial state the announcements are those of the entries that began to play. */
  lemma ReachableAnnounced(doRandom: bool, gap: int, queue: seq<Entry>, moves: seq<Move>)
    ensures var s := Init(doRandom, gap, queue);
      && Times(NewTrack, Run(s, moves).heard) == |BegunIn(s, moves)|
      && ((forall i :: 0 <= i <= |moves| ==> AllAnnounced(Run(s, moves[..i]))) <==> NeverTurnsDown(s, moves))
  {
    hide Run, BegunIn, NeverTurnsDown;
    var s := Init(doRandom, gap, queue);
    RunTells(s, moves);
    RunAnnounces(s, moves);
  }
}
