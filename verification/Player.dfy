/**
 The player as a state machine. The audio pipeline, the database and the file system answer through a
 World; every operation is a function from state to state, and logs record what was chosen, what went
 into the history and what clients were told.
 */
module Player {
  import opened Text

  datatype Pipe = Idle | Paused | Playing

  datatype Status = Stop | Play | Pause

  /** Broadcasts that tell clients about the player's status. */
  datatype Note = NewTrack | PauseNote | ResumeNote | StopNote

  datatype Entry = Entry(track: int, uid: int)

  datatype Played = Played(track: int, uid: int, completed: bool)

  datatype State = State(
    doRandom: bool, gap: int, gapTimer: bool, elapsedTimer: bool,
    cur: Option<int>, uid: int, pipe: Pipe, queue: seq<Entry>,
    accepted: seq<Entry>, history: seq<Played>, heard: seq<Note>)

  /**
   How the environment answers during one step: the tracks whose file can be read, what random selection
   would offer until it has nothing more to offer, and which changes of the pipeline's state succeed.
   */
  datatype World = World(readable: set<int>, picks: seq<int>, preroll: bool, play: bool, pause: bool, halt: bool)

  function StatusOf(s: State): Status
  {
    if s.pipe == Playing then Play
    else if s.gapTimer then Play
    else if s.pipe == Paused then Pause
    else Stop
  }

  // ----- choosing and finishing tracks -----

  /** Number of leading entries that cannot be played. */
  function Skipped(q: seq<Entry>, readable: set<int>): (k: nat)
    ensures k <= |q|
  { if q == [] || q[0].track in readable then 0 else 1 + Skipped(q[1..], readable) }

  function SkippedPicks(picks: seq<int>, readable: set<int>): (k: nat)
    ensures k <= |picks|
  { if picks == [] || picks[0] in readable then 0 else 1 + SkippedPicks(picks[1..], readable) }

  /** Takes the next track from the queue, or else at random; an unplayable track may be left behind. */
  function DbGetNext(s: State, w: World): State
  {
    if s.cur.Some? then s
    else
      var k := Skipped(s.queue, w.readable);
      if k < |s.queue| then
        var q := s.queue[k];
        s.(cur := Some(q.track), uid := q.uid, queue := s.queue[k + 1..], accepted := s.accepted + [q])
      else
        var left := if s.queue == [] then None else Some(s.queue[|s.queue| - 1].track);
        var s1 := s.(queue := [], uid := 0, cur := left);
        if !s.doRandom then s1
        else
          var j := SkippedPicks(w.picks, w.readable);
          if j < |w.picks| then s1.(cur := Some(w.picks[j]), accepted := s.accepted + [Entry(w.picks[j], 0)])
          else s1.(cur := None)
  }

  function DbFinish(s: State, completed: bool): State
  {
    if s.cur.None? then s
    else s.(cur := None, uid := 0, history := s.history + [Played(s.cur.value, s.uid, completed)])
  }

  // ----- operating the pipeline -----

  function Tell(s: State, n: Note): State { s.(heard := s.heard + [n]) }

  function BpStart(s: State, w: World): State
  {
    if StatusOf(s) != Stop then s
    else
      var s1 := DbGetNext(s, w);
      if s1.cur.None? then Tell(s1, StopNote)
      else
        var s2 := if w.preroll then s1.(pipe := Paused) else s1;
        if w.play then Tell(s2.(pipe := Playing), NewTrack).(elapsedTimer := true)
        else Tell(DbFinish(s2, false), StopNote)
  }

  function BpFinish(s: State, complete: bool, w: World): State
  {
    var s1 := s.(elapsedTimer := false, gapTimer := false);
    if w.halt then DbFinish(s1.(pipe := Idle), complete) else DbFinish(s1, false)
  }

  function BpResume(s: State, w: World): State
  {
    if s.pipe != Paused then s
    else if w.play then Tell(s.(pipe := Playing), ResumeNote).(elapsedTimer := true)
    else Tell(BpFinish(s, false, w), StopNote)
  }

  function BpPause(s: State, w: World): State
  {
    if s.gapTimer then Tell(s.(gapTimer := false), StopNote)
    else if s.pipe != Playing then s
    else if w.pause then Tell(s.(pipe := Paused), PauseNote).(elapsedTimer := false)
    else Tell(BpFinish(s, false, w), StopNote)
  }

  // ----- events -----

  /** Commands of clients and of the sleep timer, messages of the pipeline, and the gap timer. */
  datatype Event =
    | StartCmd | StopCmd | NextCmd | PauseCmd
    | EndOfStream | PipeError | GapTimeout
    | SetGap(gap: int) | SetRandom(on: bool) | Enqueue(entry: Entry)

  function Step(s: State, ev: Event, w: World): State
  {
    match ev
    case StartCmd =>
      (match StatusOf(s) case Play => s case Pause => BpResume(s, w) case Stop => BpStart(s, w))
    case StopCmd => if StatusOf(s) == Stop then s else Tell(BpFinish(s, true, w), StopNote)
    case NextCmd => BpStart(BpFinish(s, true, w), w)
    case PauseCmd => if StatusOf(s) == Pause then s else BpPause(s, w)
    case EndOfStream =>
      var s1 := BpFinish(s, true, w);
      if s.gap != 0 then s1.(gapTimer := true) else BpStart(s1, w)
    case PipeError => Tell(BpFinish(s, false, w), StopNote)
    case GapTimeout => if s.gapTimer then BpStart(s.(gapTimer := false), w) else s
    case SetGap(g) => s.(gap := g)
    case SetRandom(on) => s.(doRandom := on)
    case Enqueue(e) => s.(queue := s.queue + [e])
  }

  datatype Move = Move(ev: Event, world: World)

  function Run(s: State, moves: seq<Move>): State
    decreases |moves|
  { if moves == [] then s else Run(Step(s, moves[0].ev, moves[0].world), moves[1..]) }

  function Init(doRandom: bool, gap: int, queue: seq<Entry>): State
  { State(doRandom, gap, false, false, None, 0, Idle, queue, [], [], []) }
}
