/** The player as it is written: fields that every operation updates in place. */
module PlayerMachine {
  import opened Text
  import opened Player

  lemma SkippedAt(q: seq<Entry>, n: nat, readable: set<int>)
    requires n < |q|
    ensures Skipped(q[n..], readable) == if q[n].track in readable then 0 else 1 + Skipped(q[n + 1..], readable)
  {
    assert q[n..][1..] == q[n + 1..];
  }

  lemma SkippedPicksAt(picks: seq<int>, n: nat, readable: set<int>)
    requires n < |picks|
    ensures SkippedPicks(picks[n..], readable) ==
      if picks[n] in readable then 0 else 1 + SkippedPicks(picks[n + 1..], readable)
  {
    assert picks[n..][1..] == picks[n + 1..];
  }

  /** The first n entries were fetched and cannot be played, and q is the next one. */
  ghost predicate Taking(q0: seq<Entry>, readable: set<int>, n: nat, q: Option<Entry>, rest: seq<Entry>,
                         cur: Option<int>)
  {
    && n <= |q0| && Skipped(q0, readable) == n + Skipped(q0[n..], readable)
    && (if n == |q0| then q == None && rest == [] else q == Some(q0[n]) && rest == q0[n + 1..])
    && cur == if n == 0 then None else Some(q0[n - 1].track)
  }

  lemma TakingBegin(q0: seq<Entry>, readable: set<int>)
    ensures if q0 == [] then Taking(q0, readable, 0, None, [], None)
            else Taking(q0, readable, 0, Some(q0[0]), q0[1..], None)
  {
    assert q0[0..] == q0;
  }

  lemma TakingStep(q0: seq<Entry>, readable: set<int>, n: nat, q: Option<Entry>, rest: seq<Entry>, cur: Option<int>)
    requires Taking(q0, readable, n, q, rest, cur) && q.Some?
    ensures n < |q0|
    ensures q.value.track in readable ==> Skipped(q0, readable) == n && q.value == q0[n] && rest == q0[n + 1..]
    ensures q.value.track !in readable ==>
      var last := Some(q.value.track);
      if rest == [] then Taking(q0, readable, n + 1, None, [], last)
      else Taking(q0, readable, n + 1, Some(rest[0]), rest[1..], last)
  {
    SkippedAt(q0, n, readable);
  }

  lemma TakingEnd(q0: seq<Entry>, readable: set<int>, n: nat, rest: seq<Entry>, cur: Option<int>)
    requires Taking(q0, readable, n, None, rest, cur)
    ensures Skipped(q0, readable) == |q0| && rest == []
    ensures cur == if q0 == [] then None else Some(q0[|q0| - 1].track)
  {
    NoneLeft(q0, readable);
  }

  class Machine {
    var doRandom: bool
    var gap: int
    var gapTimer: bool
    var elapsedTimer: bool
    var cur: Option<int>
    var uid: int
    var pipe: Pipe
    var queue: seq<Entry>
    ghost var accepted: seq<Entry>
    ghost var history: seq<Played>
    ghost var heard: seq<Note>

    ghost function View(): (s: State)
      reads this
    { State(doRandom, gap, gapTimer, elapsedTimer, cur, uid, pipe, queue, accepted, history, heard) }

    constructor (doRandom: bool, gap: int, queue: seq<Entry>)
      ensures View() == Init(doRandom, gap, queue)
    {
      this.doRandom, this.gap, this.queue := doRandom, gap, queue;
      gapTimer, elapsedTimer, cur, uid, pipe := false, false, None, 0, Idle;
      accepted, history, heard := [], [], [];
    }

    /** Removes the head of the queue. */
    method QueueFetch() returns (q: Option<Entry>)
      modifies this`queue
      ensures if old(queue) == [] then q == None && queue == []
              else q == Some(old(queue)[0]) && queue == old(queue)[1..]
    {
      if queue == [] { return None; }
      q := Some(queue[0]);
      queue := queue[1..];
    }

    /** Takes entries from the queue until one can be played; the last one tried stays current. */
    method TakeQueued(w: World) returns (found: bool)
      requires cur == None
      modifies this`queue, this`cur, this`uid, this`accepted
      ensures var k, q := Skipped(old(queue), w.readable), old(queue);
        && (found <==> k < |q|)
        && (found ==> queue == q[k + 1..] && cur == Some(q[k].track) && uid == q[k].uid)
        && (found ==> accepted == old(accepted) + [q[k]])
        && (!found ==> queue == [] && accepted == old(accepted))
        && (!found ==> cur == if q == [] then None else Some(q[|q| - 1].track))
    {
      hide Skipped, Taking;
      ghost var q0, n := queue, 0;
      var q := QueueFetch();
      TakingBegin(q0, w.readable);
      while q.Some?
        invariant Taking(q0, w.readable, n, q, queue, cur) && accepted == old(accepted)
        decreases |q0| - n
      {
        TakingStep(q0, w.readable, n, q, queue, cur);
        cur := Some(q.value.track);
        uid := q.value.uid;
        if cur.value in w.readable {
          accepted := accepted + [q.value];
          return true;
        }
        q := QueueFetch();
        n := n + 1;
      }
      TakingEnd(q0, w.readable, n, queue, cur);
      found := false;
    }

    /** Tries what random selection offers until a track can be played or there is no more. */
    method TakeRandom(w: World)
      modifies this
      ensures var j := SkippedPicks(w.picks, w.readable);
        View() == if j < |w.picks|
                  then old(View()).(cur := Some(w.picks[j]), accepted := old(accepted) + [Entry(w.picks[j], 0)])
                  else old(View()).(cur := None)
    {
      hide SkippedPicks;
      var i := 0;
      ghost var j := SkippedPicks(w.picks, w.readable);
      assert w.picks[0..] == w.picks;
      cur := if i < |w.picks| then Some(w.picks[i]) else None;
      while cur.Some?
        invariant i <= |w.picks| && j == i + SkippedPicks(w.picks[i..], w.readable)
        invariant cur == if i < |w.picks| then Some(w.picks[i]) else None
        invariant View() == old(View()).(cur := cur)
        decreases |w.picks| - i
      {
        SkippedPicksAt(w.picks, i, w.readable);
        if cur.value in w.readable {
          accepted := accepted + [Entry(cur.value, 0)];
          return;
        }
        i := i + 1;
        cur := if i < |w.picks| then Some(w.picks[i]) else None;
      }
      NoPickLeft(w.picks, w.readable);
    }

    method GetNext(w: World)
      modifies this
      ensures View() == DbGetNext(old(View()), w)
    {
      hide Skipped, SkippedPicks;
      if cur.Some? { return; }
      var found := TakeQueued(w);
      if found { return; }
      uid := 0;
      if !doRandom { return; }
      TakeRandom(w);
    }

    method Finish(completed: bool)
      modifies this
      ensures View() == DbFinish(old(View()), completed)
    {
      if cur == None { return; }
      history := history + [Played(cur.value, uid, completed)];
      cur := None;
      uid := 0;
    }

    method Status() returns (r: Status)
      ensures r == StatusOf(View())
    {
      if pipe == Playing { return Play; }
      else if gapTimer { return Play; }
      else if pipe == Paused { return Pause; }
      r := Stop;
    }

    method Start(w: World)
      modifies this
      ensures View() == BpStart(old(View()), w)
    {
      hide DbGetNext;
      var st := Status();
      if st != Stop { return; }
      GetNext(w);
      if cur == None {
        heard := heard + [StopNote];
        return;
      }
      if w.preroll { pipe := Paused; }
      if !w.play {
        Finish(false);
        heard := heard + [StopNote];
        return;
      }
      pipe := Playing;
      heard := heard + [NewTrack];
      elapsedTimer := true;
    }

    method FinishPipe(complete: bool, w: World)
      modifies this
      ensures View() == BpFinish(old(View()), complete, w)
    {
      if elapsedTimer { elapsedTimer := false; }
      if gapTimer { gapTimer := false; }
      if !w.halt {
        Finish(false);
        return;
      }
      pipe := Idle;
      Finish(complete);
    }

    method Resume(w: World)
      modifies this
      ensures View() == BpResume(old(View()), w)
    {
      if pipe != Paused { return; }
      if !w.play {
        FinishPipe(false, w);
        heard := heard + [StopNote];
        return;
      }
      pipe := Playing;
      heard := heard + [ResumeNote];
      if !elapsedTimer { elapsedTimer := true; }
    }

    method PausePipe(w: World)
      modifies this
      ensures View() == BpPause(old(View()), w)
    {
      if gapTimer {
        gapTimer := false;
        heard := heard + [StopNote];
        return;
      }
      if pipe != Playing { return; }
      if !w.pause {
        FinishPipe(false, w);
        heard := heard + [StopNote];
        return;
      }
      pipe := Paused;
      heard := heard + [PauseNote];
      if elapsedTimer { elapsedTimer := false; }
    }

    /** Commands, pipeline messages and timers, one at a time. */
    method Handle(ev: Event, w: World)
      modifies this
      ensures View() == Step(old(View()), ev, w)
    {
      hide BpStart, BpFinish, BpResume, BpPause;
      var st := Status();
      match ev
      case StartCmd =>
        if st == Pause { Resume(w); } else if st == Stop { Start(w); }
      case StopCmd =>
        if st != Stop {
          FinishPipe(true, w);
          heard := heard + [StopNote];
        }
      case NextCmd =>
        FinishPipe(true, w);
        Start(w);
      case PauseCmd =>
        if st != Pause { PausePipe(w); }
      case EndOfStream =>
        var g := gap;
        FinishPipe(true, w);
        if g != 0 { gapTimer := true; } else { Start(w); }
      case PipeError =>
        FinishPipe(false, w);
        heard := heard + [StopNote];
      case GapTimeout =>
        if gapTimer {
          gapTimer := false;
          Start(w);
        }
      case SetGap(g) => gap := g;
      case SetRandom(on) => doRandom := on;
      case Enqueue(e) => queue := queue + [e];
    }

    /** Handles any sequence of events, with any answers of the pipeline. */
    method HandleAll(moves: seq<Move>)
      modifies this
      ensures View() == Run(old(View()), moves)
    {
      hide Step;
      assert moves[0..] == moves;
      for i := 0 to |moves|
        invariant Run(old(View()), moves) == Run(View(), moves[i..])
      {
        assert moves[i..][0] == moves[i] && moves[i..][1..] == moves[i + 1..];
        Handle(moves[i].ev, moves[i].world);
      }
    }
  }

  lemma NoneLeft(q: seq<Entry>, readable: set<int>)
    ensures Skipped(q[|q|..], readable) == 0
  {}

  lemma NoPickLeft(picks: seq<int>, readable: set<int>)
    ensures SkippedPicks(picks[|picks|..], readable) == 0
  {}
}
