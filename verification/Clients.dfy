/**
 The table of connected clients: one list with a shared cursor, reference counts, and a disconnect
 callback that broadcasts to the very list the client was just removed from. Sends may fail at any time.
 */
module Clients {
  import opened Text
  import opened ClientLedger
  import opened ClientLog
  import Session

  class ClientTable {
    var list: seq<int>
    var cur: nat
    var refs: map<int, int>
    var del: set<int>
    var maxid: int
    var open: set<int>
    var right: map<int, int>
    ghost var listed: multiset<int>
    ghost var held: multiset<int>
    ghost var borrowed: multiset<int>
    ghost var gone: seq<int>
    ghost var sent: seq<Sent>

    ghost function View(): (t: Table)
      reads this
    { Table(list, cur, refs, del, maxid, listed, held, borrowed, gone) }

    ghost predicate Valid()
      reads this
    { Ok(View()) && maxid >= 0 && Logged(sent, maxid) }

    constructor ()
      ensures Valid() && Settled(View())
      ensures View() == Table([], 0, map[], {}, 0, multiset{}, multiset{}, multiset{}, [])
      ensures open == {} && right == map[] && sent == []
    {
      list, cur, refs, del, maxid, open, right := [], 0, map[], {}, 0, {}, map[];
      listed, held, borrowed, gone, sent := multiset{}, multiset{}, multiset{}, [], [];
    }

    method Addref(c: int)
      requires Valid() && c in refs
      modifies this`refs, this`borrowed
      ensures Valid() && View() == Borrow(old(View()), c)
      ensures old(Settled(View())) ==> Settled(View())
    {
      hide Ok, Shrinks, Settled;
      BorrowOk(View(), c);
      refs := refs[c := refs[c] + 1];
      borrowed := borrowed + multiset{c};
    }

    /** Gives a reference back; the last one disconnects and frees the client, which is not listed then. */
    method Delref(c: int)
      requires Valid() && borrowed[c] > 0 && c in refs
      requires Settled(View()) || refs[c] > 1
      modifies this
      ensures Valid() && Shrinks(old(View()), View()) && borrowed == old(borrowed) - multiset{c}
      ensures old(Settled(View())) ==> Settled(View())
      ensures old(refs)[c] > 1 || c in old(del) ==> View() == Return(old(View()), c)
      ensures old(refs)[c] == 1 && c !in old(del) ==> c !in refs && c in gone && c !in old(list)
      ensures open == old(open) && right == old(right) && Thins(old(list), old(sent), {}, list, sent)
      ensures old(refs)[c] > 1 || c in old(del) ==> sent == old(sent)
      ensures old(refs)[c] == 1 && c !in old(del) && Calm(old(sent), sent) ==>
        sent == old(sent) + LoggedOut(c, list, open, right)
      decreases Live(View()), 0
    {
      hide Ok, Shrinks, Settled, Live, Return, Free, Thins, Logged, Calm, LoggedOut;
      ghost var t := View();
      ThinsSelf(list, sent);
      BorrowedIsAllocated(t, c);
      ReturnMeans(t, c);
      if refs[c] > 1 || c in del { ReturnOk(t, c); } else { RetireOk(t, c); }
      Decrement(c);
      if c in del { return; }
      if refs[c] > 0 { return; }
      del := del + {c};
      gone := gone + [c];
      assert View() == Retire(t, c);
      LogOut(c);
      ghost var u := View();
      AfterCallback(t, c, u);
      FreeMeans(u, c);
      Dispose(c);
    }

    /** The disconnect callback: others are told, unless the client never logged in. */
    method LogOut(c: int)
      requires Valid() && Settled(View())
      modifies this
      ensures Valid() && Settled(View()) && Shrinks(old(View()), View()) && borrowed == old(borrowed)
      ensures open == old(open) && right == old(right) && Thins(old(list), old(sent), {}, list, sent)
      ensures Calm(old(sent), sent) ==> sent == old(sent) + LoggedOut(c, list, open, right)
      decreases Live(View()), 8
    {
      hide Ok, Shrinks, Settled, Live, Thins, Logged, Calm, Entitled, Wanted, Reached;
      ShrinksSelf(View());
      ThinsSelf(list, sent);
      ghost var l := list;
      if c !in open { Bcast(Session.USER); }
      CalmLogOut(c, l, old(sent), list, sent, open, right);
    }

    method Decrement(c: int)
      requires c in refs
      modifies this`refs, this`borrowed
      ensures View() == Return(old(View()), c)
    {
      refs := refs[c := refs[c] - 1];
      borrowed := borrowed - multiset{c};
    }

    method Dispose(c: int)
      modifies this`refs, this`del
      ensures View() == Free(old(View()), c)
    {
      refs := refs - {c};
      del := del - {c};
    }

    // ----- iterating over the list; the cursor is shared by all who do -----

    method ItCur() returns (r: Option<int>)
      requires Valid() && Settled(View())
      modifies this`refs, this`borrowed
      ensures Valid() && Settled(View()) && StepsTo(old(View()), View(), r)
    {
      hide Ok, Shrinks, Settled;
      CursorInList(View());
      if cur >= |list| { return None; }
      ListedIsAllocated(View(), cur);
      Addref(list[cur]);
      r := Some(list[cur]);
    }

    method ItBegin() returns (r: Option<int>)
      requires Valid() && Settled(View())
      modifies this`cur, this`refs, this`borrowed
      ensures Valid() && Settled(View()) && cur == 0 && StepsTo(old(View()).(cur := 0), View(), r)
    {
      hide Ok, Shrinks, Settled, StepsTo;
      CursorOk(View(), 0);
      cur := 0;
      r := ItCur();
    }

    method ItNext() returns (r: Option<int>)
      requires Valid() && Settled(View())
      modifies this`cur, this`refs, this`borrowed
      ensures Valid() && Settled(View())
      ensures cur == if old(cur) < |list| then old(cur) + 1 else old(cur)
      ensures StepsTo(old(View()).(cur := cur), View(), r)
    {
      hide Ok, Shrinks, Settled;
      CursorInList(View());
      if cur >= |list| { return None; }
      CursorOk(View(), cur + 1);
      cur := cur + 1;
      r := ItCur();
    }

    /** Drops the list's reference to the client under the cursor, then closes the gap. */
    method ItDel()
      requires Valid() && Settled(View()) && cur < |list| && borrowed[list[cur]] > 0
      modifies this
      ensures Valid() && Settled(View()) && Shrinks(old(View()), View())
      ensures borrowed == old(borrowed) && del == old(del) && list == Remove(old(list), old(cur))
      ensures old(list)[old(cur)] !in list && |list| < |old(list)|
      ensures var c := old(list)[old(cur)]; c in old(refs) && refs == old(refs)[c := old(refs)[c] - 1]
      ensures open == old(open) && right == old(right) && sent == old(sent)
      decreases Live(View()), 1
    {
      hide Ok, Shrinks, Settled, Live, Unlist, Return, Remove, Thins, Logged, Calm, LoggedOut;
      var c := list[cur];
      ghost var t := View();
      ListedIsAllocated(t, cur);
      UnlistOk(t, cur);
      UnlistLive(t, c);
      AfterUnlist(t, cur);
      PassOn(c);
      Delref(c);
      ghost var v := View();
      assert v == Return(Unlist(t, c), c);
      RemoveOk(v, cur);
      CloseGap();
      ShrinksTrans(t, v, View());
    }

    /** The list's reference becomes the caller's, who is about to drop it. */
    ghost method PassOn(c: int)
      modifies this`listed, this`borrowed
      ensures View() == Unlist(old(View()), c)
    {
      listed := listed - multiset{c};
      borrowed := borrowed + multiset{c};
    }

    method CloseGap()
      requires cur < |list|
      modifies this`list
      ensures list == Remove(old(list), cur)
    {
      list := list[..cur] + list[cur + 1..];
    }

    /** Removes the client under the cursor, which the caller has borrowed from the table t. */
    method CloseCurrent(c: int, ghost t: Table)
      requires Valid() && Settled(View()) && cur < |list| && list[cur] == c
      requires Ok(t) && Settled(t) && c in t.refs && View() == Borrow(t, c)
      modifies this
      ensures Valid() && Settled(View()) && Shrinks(t, View()) && borrowed == t.borrowed
      ensures c !in list && |list| < |t.list|
      ensures t.refs[c] == 1 && c !in t.del ==> c !in refs && c in gone
      ensures open == old(open) && right == old(right) && Thins(t.list, old(sent), {c}, list, sent)
      ensures ClosesCalmly(c, t, open, right, old(sent), list, sent)
      decreases Live(View()), 2
    {
      hide Ok, Shrinks, Settled, Live, Borrow, Return, Thins, Calm, LoggedOut, Remove, Logged;
      ghost var u := View();
      BorrowOk(t, c);
      ReturnBorrowed(t, c);
      OkDistinct(t);
      ThinsRemove(t.list, cur, sent);
      ItDel();
      ghost var v := View();
      ShrinksTrans(t, u, v);
      ShrinksLive(u, v);
      Delref(c);
      ShrinksLive(v, View());
      StaysOut(c, v, View());
      ShrinksTrans(t, v, View());
      ThinsOn(t.list, old(sent), {c}, v.list, old(sent), list, sent);
    }

    /** Gives back the client under the cursor, which the caller has borrowed from the table t, and steps on. */
    method StepOver(c: int, ghost t: Table) returns (r: Option<int>)
      requires Valid() && Settled(View()) && cur < |list| && list[cur] == c
      requires Ok(t) && Settled(t) && c in t.refs && View() == Borrow(t, c)
      modifies this
      ensures Valid() && Settled(View()) && list == t.list && cur == t.cur + 1 && StepsTo(t.(cur := cur), View(), r)
      ensures open == old(open) && right == old(right) && sent == old(sent)
      decreases Live(View()), 1
    {
      hide Ok, Shrinks, Settled, Live, Borrow, Return, StepsTo;
      BorrowOk(t, c);
      ReturnBorrowed(t, c);
      ListedIsAllocated(View(), cur);
      Delref(c);
      assert View() == t;
      r := ItNext();
    }

    /** Removes a client from the list, if it is there. */
    method Close(c: int)
      requires Valid() && Settled(View()) && c in refs
      modifies this
      ensures Valid() && Settled(View()) && Shrinks(old(View()), View()) && borrowed == old(borrowed)
      ensures c !in list && (c in old(list) ==> |list| < |old(list)|)
      ensures c in old(list) && old(refs)[c] == 1 && c !in old(del) ==> c !in refs && c in gone
      ensures open == old(open) && right == old(right) && Thins(old(list), old(sent), {c}, list, sent)
      ensures c in old(list) ==> ClosesCalmly(c, old(View()), open, right, old(sent), list, sent)
      ensures c !in old(list) ==> sent == old(sent)
      decreases Live(View()), 3
    {
      hide Ok, Shrinks, Settled, Live, Return, Passed, Thins, ClosesCalmly, Logged;
      ghost var t := View();
      var i := ItBegin();
      PassedNone(list, c);
      while i.Some?
        invariant Valid() && Settled(View()) && list == t.list && cur <= |list| && Passed(list, cur, c)
        invariant StepsTo(t.(cur := cur), View(), i)
        invariant open == old(open) && right == old(right) && sent == old(sent)
        decreases |list| - cur
      {
        ghost var t1, u := t.(cur := cur), View();
        CursorOk(t, cur);
        BorrowOk(t1, i.value);
        ShrinksTrans(t, t1, u);
        ShrinksLive(t, u);
        if i.value == c {
          CloseCurrent(c, t1);
          SameClose(c, t, t1, open, right, old(sent), list, sent);
          ShrinksTrans(t, t1, View());
          return;
        }
        PassedMore(list, cur, c);
        i := StepOver(i.value, t1);
      }
      PassedAll(list, cur, c);
      CursorOk(t, cur);
      ThinsAbsent(list, sent, {c});
    }

    /** Sending may fail at any time, and then closes the client. */
    method Send(c: int) returns (ok: bool)
      requires Valid() && Settled(View()) && c in refs
      modifies this
      ensures Valid() && Settled(View()) && Shrinks(old(View()), View()) && borrowed == old(borrowed)
      ensures ok ==> View() == old(View())
      ensures !ok ==> c !in list && (c in old(list) ==> |list| < |old(list)|)
      ensures open == old(open) && right == old(right) && Thins(old(list), old(sent), {}, list, sent)
      ensures old(sent) + [Sent(c, ok)] <= sent && (ok ==> sent == old(sent) + [Sent(c, true)])
      decreases Live(View()), 4
    {
      hide Ok, Shrinks, Settled, Live, Thins, Logged;
      ShrinksSelf(View());
      AllocatedIsAccepted(View(), c);
      ok := *;
      LoggedMore(sent, maxid, c, ok);
      ThinsReached(list, sent, c);
      sent := sent + [Sent(c, ok)];
      if !ok {
        Close(c);
        ThinsGrows(old(list), old(sent) + [Sent(c, false)], {c}, list, sent);
        ThinsFailed(old(list), old(sent), c, list, sent);
      }
    }

    /** Sends to the client under the cursor, which the caller has borrowed from the table s, if it has the right. */
    method TellOne(c: int, min: int, ghost s: Table)
      requires Valid() && Settled(View()) && cur < |list| && list[cur] == c
      requires Ok(s) && Settled(s) && c in s.refs && View() == Borrow(s, c)
      modifies this
      ensures Valid() && Settled(View()) && Shrinks(s, View()) && borrowed == s.borrowed
      ensures |list| < |s.list| || (list == s.list && cur == s.cur)
      ensures open == old(open) && right == old(right) && Thins(s.list, old(sent), {}, list, sent)
      ensures Calm(old(sent), sent) ==>
        sent == old(sent) + Reached(if Entitled(right, min)(c) then [c] else []) && View() == s
      decreases Live(View()), 5
    {
      hide Ok, Shrinks, Settled, Live, Borrow, Return, Thins, Logged;
      BorrowOk(s, c);
      ReturnBorrowed(s, c);
      ListedIsAllocated(View(), cur);
      ghost var u := View();
      ShrinksSelf(u);
      ThinsSelf(list, sent);
      if (if c in right then right[c] else Session.ANY) >= min {
        var ok := Send(c);
        if !ok { NotCalm(old(sent), c, sent); }
      }
      ghost var v, sent1 := View(), sent;
      ShrinksTrans(s, u, v);
      ShrinksLive(u, v);
      BorrowedIsAllocated(v, c);
      Delref(c);
      ShrinksTrans(s, v, View());
      ShrinksLive(v, View());
      ThinsOn(s.list, old(sent), {}, v.list, sent1, list, sent);
    }

    /** One round of a broadcast that started at the table t with the log a. */
    method TellNext(c: int, min: int, ghost t: Table, ghost s: Table, ghost a: seq<Sent>)
      returns (next: Option<int>, ghost s1: Table)
      requires Valid() && Settled(View()) && Telling(t, s, View(), Some(c), a, sent, Entitled(right, min))
      modifies this
      ensures Valid() && Settled(View()) && Telling(t, s1, View(), next, a, sent, Entitled(right, min))
      ensures open == old(open) && right == old(right)
      ensures cur <= |list| && (|list| < |old(list)| || (list == old(list) && cur == old(cur) + 1))
      decreases Live(View()), 6
    {
      hide Ok, Shrinks, Settled, Live, Thins, Calm, Entitled, Reached, Logged, Telling, Borrow, StepsTo;
      ghost var u := View();
      TellingMeans(t, s, u, c, a, sent, Entitled(right, min));
      TellOne(c, min, s);
      ghost var v := View();
      CursorInList(v);
      next := ItNext();
      s1 := v.(cur := cur);
      StepsKeep(s1, View(), next);
      TellingMore(t, s, u, c, a, old(sent), v, sent, View(), next, Entitled(right, min));
    }

    /**
     Sends to the clients with at least this right; those that cannot be reached leave, and the others are told. If
     all can be reached, they are told in the order of the list.
     */
    method Bcast(min: int)
      requires Valid() && Settled(View())
      modifies this
      ensures Valid() && Settled(View()) && Shrinks(old(View()), View()) && borrowed == old(borrowed)
      ensures open == old(open) && right == old(right) && Thins(old(list), old(sent), {}, list, sent)
      ensures Calm(old(sent), sent) ==> sent == old(sent) + Reached(Wanted(old(list), Entitled(right, min)))
      decreases Live(View()), 7
    {
      hide Ok, Shrinks, Settled, Live, Thins, Calm, Wanted, Entitled, Reached, Logged, Telling;
      ghost var t := View();
      var c := ItBegin();
      ghost var s := t.(cur := 0);
      TellingBegins(t, View(), c, sent, Entitled(right, min));
      while c.Some?
        invariant Valid() && Settled(View()) && cur <= |list| && open == old(open) && right == old(right)
        invariant Telling(t, s, View(), c, old(sent), sent, Entitled(right, min))
        decreases |list|, |list| - cur
      {
        TellingLive(t, s, View(), c, old(sent), sent, Entitled(right, min));
        c, s := TellNext(c.value, min, t, s, old(sent));
      }
      TellingEnds(t, s, View(), old(sent), sent, Entitled(right, min));
    }

    /** A new connection is listed, and greeted; the greeting may already fail. */
    method AcceptClient() returns (c: int, ok: bool)
      requires Valid() && Settled(View())
      modifies this
      ensures Valid() && Settled(View()) && borrowed == old(borrowed)
      ensures c == old(maxid) + 1 && Shrinks(Accept(old(View())), View())
      ensures ok ==> View() == Accept(old(View()))
      ensures open == old(open) + {c} && right == old(right) && Thins(old(list) + [c], old(sent), {}, list, sent)
      ensures old(sent) + [Sent(c, ok)] <= sent && (ok ==> sent == old(sent) + [Sent(c, true)])
    {
      hide Ok, Shrinks, Settled, Accept, Thins, Logged;
      AcceptOk(View());
      AcceptMeans(View());
      LoggedLater(sent, maxid, maxid + 1);
      c := Enlist();
      open := open + {c};
      ok := Send(c);
    }

    /** Lists a new client, with a reference for the list. */
    method Enlist() returns (c: int)
      modifies this`maxid, this`refs, this`list, this`listed
      ensures c == maxid && View() == Accept(old(View()))
    {
      maxid := maxid + 1;
      c := maxid;
      refs := refs[c := 0];
      list := list + [c];
      refs := refs[c := refs[c] + 1];
      listed := listed + multiset{c};
      assert refs == old(refs)[c := 1];
    }

    // ----- snapshots of the list -----

    /** A reference for an iterator of its own. */
    method Keep(i: nat)
      requires Valid() && Settled(View()) && i < |list|
      modifies this`refs, this`borrowed, this`held
      ensures Valid() && Settled(View()) && refs.Keys == old(refs).Keys
      ensures held == old(held) + multiset{list[i]} && borrowed == old(borrowed)
    {
      hide Ok, Settled, Shrinks;
      ListedIsAllocated(View(), i);
      Addref(list[i]);
      HoldOk(View(), list[i]);
      HoldSettled(View(), list[i]);
      borrowed := borrowed - multiset{list[i]};
      held := held + multiset{list[i]};
    }

    /** Copies the wanted clients into an iterator of its own, which holds a reference to each. */
    method Snapshot(want: int -> bool) returns (it: seq<int>)
      requires Valid() && Settled(View())
      modifies this`refs, this`borrowed, this`held
      ensures Valid() && Settled(View())
      ensures held == old(held) + multiset(it) && borrowed == old(borrowed) && refs.Keys == old(refs).Keys
      ensures it == Wanted(list, want)
    {
      hide Ok, Settled, Shrinks, Wanted;
      it := [];
      assert Wanted(list[..0], want) == [] by { WantedNone(list, want); }
      for i := 0 to |list|
        invariant Valid() && Settled(View()) && refs.Keys == old(refs).Keys
        invariant held == old(held) + multiset(it) && borrowed == old(borrowed)
        invariant it == Wanted(list[..i], want)
      {
        WantedMore(list, want, i);
        if want(list[i]) {
          Keep(i);
          it := it + [list[i]];
        } else {
          assert it + [] == it;
        }
      }
      assert list[..|list|] == list;
    }

    /** Gives one reference of an iterator back. */
    method GiveBack(c: int, ghost u: Table)
      requires Valid() && Settled(View()) && borrowed[c] > 0 && Shrinks(u, View())
      modifies this
      ensures Valid() && Settled(View()) && Shrinks(u, View())
      ensures borrowed == old(borrowed) - multiset{c} && held == old(held)
      ensures open == old(open) && right == old(right) && Thins(old(list), old(sent), {}, list, sent)
    {
      hide Ok, Settled, Shrinks, Thins, Logged;
      ghost var v := View();
      BorrowedIsAllocated(v, c);
      Delref(c);
      ShrinksTrans(u, v, View());
      ShrinksMeans(v, View());
    }

    /** Gives all references of an iterator back. */
    method SnapshotDone(it: seq<int>)
      requires Valid() && Settled(View()) && multiset(it) <= held
      modifies this
      ensures Valid() && Settled(View()) && borrowed == old(borrowed) && held == old(held) - multiset(it)
      ensures Shrinks(old(View()).(held := old(held) - multiset(it)), View())
      ensures open == old(open) && right == old(right) && Thins(old(list), old(sent), {}, list, sent)
    {
      hide Ok, Settled, Shrinks, Thins, Logged;
      ghost var t := View();
      ThinsSelf(list, sent);
      ReleaseOk(t, it);
      ReleaseSettled(t, it);
      held := held - multiset(it);
      borrowed := borrowed + multiset(it);
      ghost var u := t.(held := held);
      ReleaseShrinks(t, it);
      assert it[0..] == it;
      for i := 0 to |it|
        invariant Valid() && Settled(View()) && borrowed == t.borrowed + multiset(it[i..])
        invariant Shrinks(u, View()) && held == u.held
        invariant open == old(open) && right == old(right) && Thins(old(list), old(sent), {}, list, sent)
      {
        TakeFirst(t.borrowed, it, i);
        ghost var l0, sent0 := list, sent;
        GiveBack(it[i], u);
        ThinsOn(old(list), old(sent), {}, l0, sent0, list, sent);
      }
    }

    /** Tells a client that it is kicked, and closes it, while an iterator still holds it. */
    method KickOne(c: int)
      requires Valid() && Settled(View()) && held[c] > 0
      modifies this
      ensures Valid() && Settled(View()) && Shrinks(old(View()), View()) && borrowed == old(borrowed)
      ensures c !in list
      ensures open == old(open) && right == old(right) && Thins(old(list), old(sent), {c}, list, sent)
      ensures Addressed(old(sent), sent, c)
    {
      hide Ok, Settled, Shrinks, Thins, Logged, ClosesCalmly, Calm, LoggedOut;
      ghost var t := View();
      BorrowedIsAllocated(t, c);
      BorrowOk(t, c);
      Addref(c);
      ghost var u := View();
      var ok := Send(c);
      ghost var v, sent1 := View(), sent;
      BorrowedIsAllocated(v, c);
      Close(c);
      ghost var w, sent2 := View(), sent;
      ThinsTrans(old(list), old(sent), {}, v.list, sent1, {c}, list, sent);
      BorrowedIsAllocated(w, c);
      Delref(c);
      assert {} + {c} == {c};
      ThinsGrows(v.list, sent1, {c}, w.list, sent2);
      ThinsOn(old(list), old(sent), {c}, w.list, sent2, list, sent);
      assert sent[|old(sent)|].c == c;
      ShrinksTrans(t, u, v);
      ShrinksTrans(t, v, w);
      StaysOut(c, w, View());
      ShrinksTrans(t, w, View());
    }

    /** Kicks the wanted clients, all of whom have left the list afterwards. */
    method Kick(want: int -> bool) returns (found: nat)
      requires Valid() && Settled(View())
      modifies this
      ensures Valid() && Settled(View()) && Shrinks(old(View()), View()) && borrowed == old(borrowed)
      ensures var it := Wanted(old(list), want); found == |it| && Left(it, |it|, list)
      ensures open == old(open) && right == old(right)
      ensures Thins(old(list), old(sent), Elems(Wanted(old(list), want)), list, sent)
      ensures forall c :: c in Wanted(old(list), want) ==> Addressed(old(sent), sent, c)
    {
      hide Ok, Settled, Shrinks, Wanted, Left, Thins, Logged, Elems, Addressed;
      ghost var t := View();
      var it := Snapshot(want);
      ghost var s := View();
      SnapshotShrinks(t, s);
      ShrinksSelf(s);
      found := 0;
      assert Left(it, 0, list) by { LeftNone(it, list); }
      ThinsSelf(list, sent);
      ElemsNone(it, sent);
      for k := 0 to |it|
        invariant Valid() && Settled(View()) && borrowed == old(borrowed) && found == k
        invariant Shrinks(s, View()) && held == s.held && Left(it, k, list)
        invariant open == old(open) && right == old(right) && Thins(old(list), old(sent), Elems(it[..k]), list, sent)
        invariant AllAddressed(it[..k], old(sent), sent)
      {
        ghost var v, sent0 := View(), sent;
        assert it[k] in multiset(it);
        KickOne(it[k]);
        ThinsGrows(old(list), old(sent), Elems(it[..k]), v.list, sent0);
        ThinsGrows(v.list, sent0, {it[k]}, list, sent);
        ThinsTrans(old(list), old(sent), Elems(it[..k]), v.list, sent0, {it[k]}, list, sent);
        ElemsMore(it, k);
        AddressedMore(it, k, old(sent), sent0, sent);
        ShrinksMeans(v, View());
        ShrinksTrans(s, v, View());
        LeftForGood(it, k, v, View());
        LeftMore(it, k, list);
        found := found + 1;
      }
      ghost var z, sent1 := View(), sent;
      assert it[..|it|] == it;
      SnapshotDone(it);
      ThinsOn(old(list), old(sent), Elems(it), z.list, sent1, list, sent);
      AddressedLater(it, old(sent), sent1, sent);
      AllAddressedMeans(it, old(sent), sent);
      KickShrinks(t, it, s, z, View());
      LeftForGood(it, |it|, z.(held := z.held - multiset(it)), View());
    }

    // ----- whole runs -----

    /** Handles one event; all lines of a read are handled while the client is borrowed. */
    method Perform(op: Op)
      requires Valid() && Settled(View())
      modifies this
      ensures Valid() && Settled(View()) && del == old(del)
      ensures borrowed == old(borrowed) && held == old(held)
      ensures old(gone) <= gone && maxid <= old(maxid) + Opens(op)
      ensures Members(old(list), old(sent), old(maxid), MustLeave(op), MayLeave(op), list, sent, maxid)
      ensures op.Connect? ==>
        && maxid == old(maxid) + 1 && |old(sent)| < |sent| && sent[|old(sent)|].c == maxid
        && Thins(old(list) + [maxid], old(sent), {}, list, sent)
      ensures !op.Connect? && !op.Input? ==>
        maxid == old(maxid) && Thins(old(list), old(sent), MustLeave(op), list, sent)
      ensures op.Hangup? && op.c in old(list) && op.c in old(refs) ==>
        && (old(refs)[op.c] == 1 && op.c !in old(del) ==> op.c !in refs && op.c in gone)
        && ClosesCalmly(op.c, old(View()), open, right, old(sent), list, sent)
      ensures op.Broadcast? && Calm(old(sent), sent) ==>
        sent == old(sent) + Reached(Wanted(old(list), Entitled(right, op.min)))
      ensures op.KickAll? ==> forall c :: c in old(list) && c in op.ids ==> Addressed(old(sent), sent, c)
      ensures op.Login? ==> View() == old(View()) && sent == old(sent)
      ensures !op.Input? ==>
        && open == (if op.Connect? then old(open) + {maxid} else if op.Login? then old(open) - {op.c} else old(open))
        && right == (if op.Login? then old(right)[op.c := op.right] else old(right))
      ensures op.Input? && op.c !in old(refs) ==> View() == old(View()) && sent == old(sent)
      ensures op.Input? && op.c in old(refs) ==>
        Members(old(list), old(sent), old(maxid), AllMustLeave(op.handlers), MayLeave(op), list, sent, maxid)
      decreases op
    {
      hide Ok, Settled, Shrinks, Return, Borrow, Thins, Members, Logged, ClosesCalmly, Wanted, Calm, Reached, Addressed;
      ghost var t := View();
      ListedIsAccepted(t);
      match op
      case Connect =>
        var c, ok := AcceptClient();
        ShrinksMeans(Accept(t), View());
        AcceptMeans(t);
        NewMember(t.list, old(sent), list, sent, t.maxid);
      case Login(c, r) =>
        open := open - {c};
        right := right[c := r];
        MembersSelf(list, sent, maxid);
        ThinsSelf(list, sent);
      case Hangup(c) =>
        HangUp(c);
        ShrinksMeans(t, View());
        ThinsMembers(t.list, old(sent), {c}, list, sent, maxid);
      case Broadcast(min) =>
        Bcast(min);
        ShrinksMeans(t, View());
        ThinsMembers(t.list, old(sent), {}, list, sent, maxid);
      case KickAll(ids) =>
        KickIds(ids);
        ShrinksMeans(t, View());
        ThinsMembers(t.list, old(sent), ids, list, sent, maxid);
      case Input(c, handlers) =>
        ghost var may := AllMayLeave(handlers);
        MembersSelf(list, sent, maxid);
        MembersWeaken(list, sent, maxid, {}, {}, {}, may, list, sent, maxid);
        if c in refs {
          Handle(c, handlers);
          MembersWeaken(t.list, old(sent), t.maxid, AllMustLeave(handlers), {}, may, may, list, sent, maxid);
        }
    }

    /** The connection is gone: a reference is taken and given back, and the client closed. */
    method HangUp(c: int)
      requires Valid() && Settled(View())
      modifies this
      ensures Valid() && Settled(View()) && Shrinks(old(View()), View())
      ensures borrowed == old(borrowed) && open == old(open) && right == old(right)
      ensures Thins(old(list), old(sent), {c}, list, sent)
      ensures c in old(list) && c in old(refs) ==>
        && (old(refs)[c] == 1 && c !in old(del) ==> c !in refs && c in gone)
        && ClosesCalmly(c, old(View()), open, right, old(sent), list, sent)
    {
      hide Ok, Settled, Shrinks, Return, Borrow, Thins, Logged, ClosesCalmly;
      ghost var t := View();
      if c in refs {
        BorrowOk(t, c);
        ReturnBorrowed(t, c);
        Addref(c);
        assert View().refs[c] > 1 || c in del by { BorrowedTwice(t, c); }
        Delref(c);
        assert View() == t;
        Close(c);
      } else {
        NotAllocated(t, c);
        ShrinksSelf(t);
        ThinsAbsent(list, sent, {c});
      }
    }

    method KickIds(ids: set<int>)
      requires Valid() && Settled(View())
      modifies this
      ensures Valid() && Settled(View()) && Shrinks(old(View()), View())
      ensures borrowed == old(borrowed) && open == old(open) && right == old(right)
      ensures Thins(old(list), old(sent), ids, list, sent)
      ensures forall c :: c in old(list) && c in ids ==> Addressed(old(sent), sent, c)
    {
      hide Ok, Settled, Shrinks, Thins, Logged, Wanted, Left, Addressed, Elems;
      var _ := Kick(c => c in ids);
      KickedAre(old(list), ids, c => c in ids);
      ThinsSame(old(list), old(sent), Elems(Wanted(old(list), c => c in ids)), ids, list, sent);
    }

    /** Handles the lines of a read, with a reference to the client they came from. */
    method Handle(c: int, handlers: seq<Op>)
      requires Valid() && Settled(View()) && c in refs
      modifies this
      ensures Valid() && Settled(View()) && del == old(del)
      ensures borrowed == old(borrowed) && held == old(held)
      ensures old(gone) <= gone && maxid <= old(maxid) + AllOpen(handlers)
      ensures
        Members(old(list), old(sent), old(maxid), AllMustLeave(handlers), AllMayLeave(handlers), list, sent, maxid)
      decreases handlers, 1
    {
      hide Ok, Settled, Shrinks, Return, Borrow, Thins, Members, Logged;
      ghost var t := View();
      ReturnBorrowed(t, c);
      Addref(c);
      PerformAll(handlers);
      ghost var u, sent1 := View(), sent;
      assert c in refs by { BorrowedIsAllocated(u, c); }
      ListedIsAccepted(u);
      Delref(c);
      ShrinksMeans(u, View());
      ThinsMembers(u.list, sent1, {}, list, sent, maxid);
      MembersTrans(t.list, old(sent), t.maxid, AllMustLeave(handlers), AllMayLeave(handlers), u.list, sent1, u.maxid,
                   {}, {}, list, sent, maxid);
      assert AllMustLeave(handlers) + {} == AllMustLeave(handlers);
      assert AllMayLeave(handlers) + {} == AllMayLeave(handlers);
    }

    /** Handles what the lines of one read ask for, one after the other. */
    method PerformAll(ops: seq<Op>)
      requires Valid() && Settled(View())
      modifies this
      ensures Valid() && Settled(View()) && del == old(del)
      ensures borrowed == old(borrowed) && held == old(held)
      ensures old(gone) <= gone && maxid <= old(maxid) + AllOpen(ops)
      ensures Members(old(list), old(sent), old(maxid), AllMustLeave(ops), AllMayLeave(ops), list, sent, maxid)
      decreases ops, 0
    {
      hide Ok, Settled, Shrinks, Members, Logged, Thins, MustLeave, MayLeave, Opens, AllOpen, AllMustLeave, AllMayLeave;
      ListedIsAccepted(View());
      MembersSelf(list, sent, maxid);
      AllNone(ops);
      for i := 0 to |ops|
        invariant Valid() && Settled(View()) && del == old(del)
        invariant borrowed == old(borrowed) && held == old(held)
        invariant old(gone) <= gone && maxid <= old(maxid) + AllOpen(ops[..i])
        invariant
          Members(old(list), old(sent), old(maxid), AllMustLeave(ops[..i]), AllMayLeave(ops[..i]), list, sent, maxid)
      {
        ghost var l0, sent0, m0 := list, sent, maxid;
        Perform(ops[i]);
        MembersTrans(old(list), old(sent), old(maxid), AllMustLeave(ops[..i]), AllMayLeave(ops[..i]), l0, sent0, m0,
                     MustLeave(ops[i]), MayLeave(ops[i]), list, sent, maxid);
        AllMore(ops, i);
      }
      assert ops[..|ops|] == ops;
    }
  }

  /** Input is one read: any number of lines, each with a handler. */
  datatype Op =
    | Connect | Login(c: int, right: int) | Hangup(c: int) | Broadcast(min: int) | KickAll(ids: set<int>)
    | Input(c: int, handlers: seq<Op>)

  /** Those who are not listed after an event, if they were connected before it. */
  function MustLeave(op: Op): set<int>
  {
    match op
    case Hangup(c) => {c}
    case KickAll(ids) => ids
    case _ => {}
  }

  function AllMustLeave(ops: seq<Op>): set<int>
  { if ops == [] then {} else AllMustLeave(ops[..|ops| - 1]) + MustLeave(ops[|ops| - 1]) }

  /** Those who may leave because of it: input is ignored if it comes from a client that is gone. */
  function MayLeave(op: Op): set<int> { if op.Input? then AllMayLeave(op.handlers) else MustLeave(op) }

  function AllMayLeave(ops: seq<Op>): set<int>
  { if ops == [] then {} else AllMayLeave(ops[..|ops| - 1]) + MayLeave(ops[|ops| - 1]) }

  /** How many clients an event may connect. */
  function Opens(op: Op): nat { if op.Input? then AllOpen(op.handlers) else if op.Connect? then 1 else 0 }

  function AllOpen(ops: seq<Op>): nat
  { if ops == [] then 0 else AllOpen(ops[..|ops| - 1]) + Opens(ops[|ops| - 1]) }

  lemma AllNone(ops: seq<Op>)
    ensures AllMustLeave(ops[..0]) == AllMayLeave(ops[..0]) == {} && AllOpen(ops[..0]) == 0
  {}

  lemma AllMore(ops: seq<Op>, i: nat)
    requires i < |ops|
    ensures AllMustLeave(ops[..i + 1]) == AllMustLeave(ops[..i]) + MustLeave(ops[i])
    ensures AllMayLeave(ops[..i + 1]) == AllMayLeave(ops[..i]) + MayLeave(ops[i])
    ensures AllOpen(ops[..i + 1]) == AllOpen(ops[..i]) + Opens(ops[i])
  {
    assert ops[..i + 1][..i] == ops[..i] && ops[..i + 1][i] == ops[i];
  }

  /** How many clients connected by themselves. */
  function Connects(ops: seq<Op>): nat
  { if ops == [] then 0 else Connects(ops[..|ops| - 1]) + if ops[|ops| - 1].Connect? then 1 else 0 }

  /** A client that is told to leave after it connected is not listed at the end. */
  ghost predicate Dismissed(ops: seq<Op>, list: seq<int>)
  {
    forall i, c :: 0 <= i < |ops| && 1 <= c <= Connects(ops[..i]) && c in MustLeave(ops[i]) ==> c !in list
  }

  lemma DismissedMore(ops: seq<Op>, k: nat, l: seq<int>, a: seq<Sent>, m: int, may: set<int>,
                      l1: seq<int>, b: seq<Sent>, m1: int)
    requires k < |ops| && Dismissed(ops[..k], l) && Connects(ops[..k]) <= m
    requires Members(l, a, m, MustLeave(ops[k]), may, l1, b, m1)
    ensures Dismissed(ops[..k + 1], l1)
  {
    hide FailedIn, MustLeave;
    var all, done := ops[..k + 1], ops[..k];
    forall i, c | 0 <= i < |all| && 1 <= c <= Connects(all[..i]) && c in MustLeave(all[i]) ensures c !in l1 {
      assert all[..i] == if i < k then done[..i] else done;
      if i < k {
        assert all[i] == done[i];
        ConnectsFewer(done, i);
      }
    }
  }

  lemma {:induction false} ConnectsFewer(ops: seq<Op>, i: nat)
    requires i <= |ops|
    ensures Connects(ops[..i]) <= Connects(ops)
  {
    if i < |ops| {
      var k := |ops| - 1;
      ConnectsFewer(ops[..k], i);
      assert ops[..k][..i] == ops[..i];
    } else {
      assert ops[..i] == ops;
    }
  }

  /**
   After any run of connections, logins, hang-ups, broadcasts, kicks and input, with sends failing at any
   point: every client ever accepted is listed with exactly one reference, or was disconnected exactly once. Who
   was told to leave after connecting, or could not be reached, is not listed, and nobody else is missing.
   */
  method Serve(ops: seq<Op>) returns (table: ClientTable)
    ensures forall c :: 1 <= c <= table.maxid ==>
      && (c in table.list <==> c in table.refs)
      && (c in table.list ==> table.refs[c] == 1 && c !in table.gone)
      && (c !in table.list ==> multiset(table.gone)[c] == 1)
    ensures Connects(ops) <= table.maxid <= AllOpen(ops)
    ensures Dismissed(ops, table.list)
    ensures forall c :: c in table.list ==> c !in FailedIn([], table.sent)
    ensures forall c :: 1 <= c <= table.maxid && c !in table.list ==>
      c in FailedIn([], table.sent) || c in AllMayLeave(ops)
  {
    hide Ok, Settled, Members, Dismissed, MustLeave, MayLeave, Opens, Connects, AllOpen, AllMayLeave;
    hide Thins, Logged, FailedIn;
    table := new ClientTable();
    ServeBegin(ops);
    MembersSelf([], [], 0);
    for i := 0 to |ops|
      invariant fresh(table) && table.Valid() && Settled(table.View())
      invariant table.borrowed == table.held == multiset{} && table.del == {}
      invariant Connects(ops[..i]) <= table.maxid <= AllOpen(ops[..i]) && Dismissed(ops[..i], table.list)
      invariant Members([], [], 0, {}, AllMayLeave(ops[..i]), table.list, table.sent, table.maxid)
    {
      ghost var l0, sent0, m0 := table.list, table.sent, table.maxid;
      table.Perform(ops[i]);
      ServeMore(ops, i, l0, sent0, m0, table.list, table.sent, table.maxid);
    }
    assert ops[..|ops|] == ops;
    MembersMeans(AllMayLeave(ops), table.list, table.sent, table.maxid);
    forall c | 1 <= c <= table.maxid
      ensures c in table.list <==> c in table.refs
      ensures c in table.list ==> table.refs[c] == 1 && c !in table.gone
      ensures c !in table.list ==> multiset(table.gone)[c] == 1
    {
      AtRest(table.View(), c);
    }
  }

  lemma ServeBegin(ops: seq<Op>)
    ensures Connects(ops[..0]) == AllOpen(ops[..0]) == 0 && Dismissed(ops[..0], []) && AllMayLeave(ops[..0]) == {}
  {}

  lemma ServeMore(ops: seq<Op>, i: nat, l: seq<int>, a: seq<Sent>, m: int, l1: seq<int>, b: seq<Sent>, m1: int)
    requires i < |ops| && Logged(a, m) && Dismissed(ops[..i], l)
    requires Members([], [], 0, {}, AllMayLeave(ops[..i]), l, a, m) && Connects(ops[..i]) <= m <= AllOpen(ops[..i])
    requires Members(l, a, m, MustLeave(ops[i]), MayLeave(ops[i]), l1, b, m1) && m1 <= m + Opens(ops[i])
    requires ops[i].Connect? ==> m1 == m + 1
    ensures Connects(ops[..i + 1]) <= m1 <= AllOpen(ops[..i + 1]) && Dismissed(ops[..i + 1], l1)
    ensures Members([], [], 0, {}, AllMayLeave(ops[..i + 1]), l1, b, m1)
  {
    hide FailedIn, Logged, Dismissed, MustLeave, MayLeave, Opens, Members;
    AllMore(ops, i);
    assert ops[..i + 1][..i] == ops[..i] && ops[..i + 1][i] == ops[i];
    MembersGrow(l, a, m, MustLeave(ops[i]), MayLeave(ops[i]), l1, b, m1);
    DismissedMore(ops, i, l, a, m, MayLeave(ops[i]), l1, b, m1);
    MembersTrans([], [], 0, {}, AllMayLeave(ops[..i]), l, a, m, MustLeave(ops[i]), MayLeave(ops[i]), l1, b, m1);
    var may := AllMayLeave(ops[..i + 1]);
    MembersWeaken([], [], 0, {} + MustLeave(ops[i]), {}, may, may, l1, b, m1);
  }
}
