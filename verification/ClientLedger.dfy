/** The bookkeeping behind the table of clients: who holds references, and what every change keeps. */
module ClientLedger {
  import opened Text

  /**
   The list of clients with its cursor, the reference counts of the allocated ones, those in their
   disconnect callback and the largest id; then the ledger: references that the list, other iterators and
   callers at work hold, and the clients whose disconnect callback has been called, in order.
   */
  datatype Table = Table(
    list: seq<int>, cur: nat, refs: map<int, int>, del: set<int>, maxid: int,
    listed: multiset<int>, held: multiset<int>, borrowed: multiset<int>, gone: seq<int>)

  function Holders(t: Table, c: int): nat { t.listed[c] + t.held[c] + t.borrowed[c] }

  predicate Distinct(s: seq<int>) { forall i, j :: 0 <= i < j < |s| ==> s[i] != s[j] }

  /**
   Counts are right, no reference dangles, only clients in their disconnect callback may have none; every
   client ever accepted is allocated or disconnected, and none is disconnected twice.
   */
  ghost predicate Ok(t: Table)
  {
    && t.cur <= |t.list| && Distinct(t.list) && t.listed <= multiset(t.list)
    && (forall c :: c in t.refs ==> t.refs[c] == Holders(t, c) && (t.refs[c] > 0 || c in t.del))
    && (forall c :: Holders(t, c) > 0 ==> c in t.refs)
    && (forall c :: c in t.del ==> c in t.refs && c in t.gone)
    && Distinct(t.gone)
    && (forall c :: c in t.gone ==> c in t.del || c !in t.refs)
    && (forall c :: c in t.refs || c in t.gone <==> 1 <= c <= t.maxid)
  }

  /** The list holds exactly one reference to each of its clients. */
  predicate Settled(t: Table) { t.listed == multiset(t.list) }

  /** Clients that are allocated and not being disconnected. */
  function Live(t: Table): set<int> { t.refs.Keys - t.del }

  /** Clients may leave, but nobody else's reference is touched. */
  predicate Shrinks(t: Table, t': Table)
  {
    && t'.held == t.held && t'.del == t.del && t'.maxid == t.maxid
    && t.gone <= t'.gone && t'.refs.Keys <= t.refs.Keys
    && |t'.list| <= |t.list| && (forall c :: c in t'.list ==> c in t.list)
  }

  lemma ShrinksSelf(t: Table)
    ensures Shrinks(t, t)
  {}

  lemma ShrinksLive(t: Table, u: Table)
    requires Shrinks(t, u)
    ensures Live(u) <= Live(t) && |u.list| <= |t.list|
  {}

  lemma ShrinksTrans(t: Table, u: Table, v: Table)
    requires Shrinks(t, u) && Shrinks(u, v)
    ensures Shrinks(t, v)
  {}

  lemma CursorInList(t: Table)
    requires Ok(t)
    ensures t.cur <= |t.list|
  {}

  // ----- the elementary changes -----

  function Borrow(t: Table, c: int): Table
    requires c in t.refs
  { t.(refs := t.refs[c := t.refs[c] + 1], borrowed := t.borrowed + multiset{c}) }

  function Return(t: Table, c: int): Table
    requires c in t.refs
  { t.(refs := t.refs[c := t.refs[c] - 1], borrowed := t.borrowed - multiset{c}) }

  lemma BorrowOk(t: Table, c: int)
    requires Ok(t) && c in t.refs
    ensures Ok(Borrow(t, c)) && Shrinks(t, Borrow(t, c)) && (Settled(t) ==> Settled(Borrow(t, c)))
    ensures Return(Borrow(t, c), c) == t
  {
    hide Distinct, Return;
    var u := Borrow(t, c);
    ReturnBorrowed(t, c);
    assert forall x :: x != c ==> Holders(u, x) == Holders(t, x);
    assert u.refs.Keys == t.refs.Keys;
  }

  /** A borrowed client is allocated. */
  lemma BorrowedIsAllocated(t: Table, c: int)
    requires Ok(t) && (t.borrowed[c] > 0 || t.held[c] > 0)
    ensures c in t.refs && t.refs[c] > 0
  {
    assert Holders(t, c) > 0;
  }

  lemma ListedIsAllocated(t: Table, k: nat)
    requires Ok(t) && Settled(t) && k < |t.list|
    ensures t.list[k] in t.refs && t.listed[t.list[k]] == 1
    ensures t.borrowed[t.list[k]] > 0 ==> t.refs[t.list[k]] > 1
  {
    assert t.list[k] in multiset(t.list);
    OnceListed(t.list, k);
    assert Holders(t, t.list[k]) > 0;
  }

  lemma {:induction false} OnceListed(s: seq<int>, k: nat)
    requires Distinct(s) && k < |s|
    ensures multiset(s)[s[k]] == 1
  {
    var c := s[k];
    assert s == s[..k] + [c] + s[k + 1..];
    assert c !in s[..k] && c !in s[k + 1..];
  }

  lemma ReturnOk(t: Table, c: int)
    requires Ok(t) && t.borrowed[c] > 0 && c in t.refs && (t.refs[c] > 1 || c in t.del)
    ensures Ok(Return(t, c)) && Shrinks(t, Return(t, c)) && (Settled(t) ==> Settled(Return(t, c)))
  {
    hide Distinct;
    var u := Return(t, c);
    assert forall x :: x != c ==> Holders(u, x) == Holders(t, x);
    assert u.refs.Keys == t.refs.Keys;
  }

  lemma DistinctMore(s: seq<int>, c: int)
    requires Distinct(s) && c !in s
    ensures Distinct(s + [c])
  {
    assert forall i :: 0 <= i < |s| ==> s[i] in s;
  }

  /** The last reference is gone: the client is not listed, and its disconnect callback is called. */
  function Retire(t: Table, c: int): Table
    requires c in t.refs
  { Return(t, c).(del := t.del + {c}, gone := t.gone + [c]) }

  lemma RetireOk(t: Table, c: int)
    requires Ok(t) && Settled(t) && t.borrowed[c] > 0 && c in t.refs && t.refs[c] == 1 && c !in t.del
    ensures Ok(Retire(t, c)) && Settled(Retire(t, c)) && Live(Retire(t, c)) < Live(t)
    ensures c !in t.list && c in Live(t) && Holders(Retire(t, c), c) == 0
  {
    hide Distinct;
    var u := Retire(t, c);
    assert Holders(t, c) == 1;
    assert c !in t.list by { assert c in t.list <==> c in multiset(t.list); }
    DistinctMore(t.gone, c);
    assert forall x :: x != c ==> Holders(u, x) == Holders(t, x);
    assert u.refs.Keys == t.refs.Keys;
  }

  lemma ReturnMeans(t: Table, c: int)
    requires c in t.refs
    ensures var u := Return(t, c); c in u.refs && u.refs[c] == t.refs[c] - 1 && u.borrowed == t.borrowed - multiset{c}
    ensures var u := Return(t, c); u.del == t.del && u.gone == t.gone && u.list == t.list
  {}

  /** The memory of a client that nobody refers to is given back. */
  function Free(t: Table, c: int): Table { t.(refs := t.refs - {c}, del := t.del - {c}) }

  lemma FreeMeans(t: Table, c: int)
    ensures Free(t, c).borrowed == t.borrowed
  {}

  lemma FreeOk(t: Table, c: int)
    requires Ok(t) && c in t.del && Holders(t, c) == 0
    ensures Ok(Free(t, c))
  {
    var u := Free(t, c);
    assert forall x :: Holders(u, x) == Holders(t, x);
  }

  /** Freeing after the callback undoes the mark and drops the client. */
  lemma FreeShrinks(t: Table, c: int, u: Table)
    requires c in t.refs && c !in t.del && Shrinks(Retire(t, c), u)
    ensures Shrinks(t, Free(u, c)) && c !in Free(u, c).refs && c in Free(u, c).gone
  {
    var r := Retire(t, c);
    assert r.refs.Keys == t.refs.Keys;
    assert u.gone[..|r.gone|] == r.gone;
    assert r.gone[|t.gone|] == c;
    assert u.del - {c} == t.del;
  }

  /** The callback leaves the client it is about alone, which can be freed afterwards. */
  lemma AfterCallback(t: Table, c: int, u: Table)
    requires Ok(t) && Settled(t) && t.borrowed[c] > 0 && c in t.refs && t.refs[c] == 1 && c !in t.del
    requires Ok(u) && Settled(u) && Shrinks(Retire(t, c), u) && u.borrowed == Retire(t, c).borrowed
    ensures Ok(Free(u, c)) && Settled(Free(u, c)) && Shrinks(t, Free(u, c))
    ensures c !in t.list && c !in Free(u, c).refs && c in Free(u, c).gone
  {
    RetireOk(t, c);
    assert c !in u.list;
    assert Holders(u, c) == 0;
    FreeOk(u, c);
    FreeShrinks(t, c, u);
  }

  /** The list's reference is passed on to the caller, who is about to drop it. */
  function Unlist(t: Table, c: int): Table
  { t.(listed := t.listed - multiset{c}, borrowed := t.borrowed + multiset{c}) }

  lemma UnlistLive(t: Table, c: int)
    ensures Live(Unlist(t, c)) == Live(t)
  {}

  lemma UnlistOk(t: Table, k: nat)
    requires Ok(t) && Settled(t) && k < |t.list| && t.borrowed[t.list[k]] > 0
    ensures var c, u := t.list[k], Unlist(t, t.list[k]);
      Ok(u) && u.borrowed[c] > 0 && c in u.refs && u.refs[c] > 1
  {
    var c := t.list[k];
    ListedIsAllocated(t, k);
    assert forall x :: Holders(Unlist(t, c), x) == Holders(t, x);
  }

  lemma AfterUnlist(t: Table, k: nat)
    requires Ok(t) && Settled(t) && k < |t.list| && t.list[k] in t.refs
    ensures var c, v := t.list[k], Return(Unlist(t, t.list[k]), t.list[k]);
      && Shrinks(t, v) && v.listed == multiset(v.list) - multiset{c}
      && v == t.(refs := t.refs[c := t.refs[c] - 1], listed := v.listed)
  {
    hide Ok, Distinct;
    var c := t.list[k];
    assert t.borrowed + multiset{c} - multiset{c} == t.borrowed;
  }

  function Remove(s: seq<int>, k: nat): seq<int>
    requires k < |s|
  { s[..k] + s[k + 1..] }

  lemma RemovedCounts(s: seq<int>, k: nat)
    requires k < |s|
    ensures |Remove(s, k)| == |s| - 1 && multiset(Remove(s, k)) == multiset(s) - multiset{s[k]}
  {
    assert s == s[..k] + [s[k]] + s[k + 1..];
    assert multiset(s) == multiset(s[..k]) + multiset{s[k]} + multiset(s[k + 1..]);
  }

  lemma Removed(s: seq<int>, k: nat)
    requires Distinct(s) && k < |s|
    ensures var r := Remove(s, k);
      && |r| == |s| - 1 && multiset(r) == multiset(s) - multiset{s[k]}
      && s[k] !in r && (forall c :: c in r ==> c in s) && Distinct(r)
  {
    RemovedCounts(s, k);
    var r := Remove(s, k);
    assert forall i :: 0 <= i < |r| ==> r[i] == s[if i < k then i else i + 1];
  }

  lemma RemoveShrinks(t: Table, k: nat)
    requires k < |t.list|
    ensures Shrinks(t, t.(list := Remove(t.list, k)))
  {}

  lemma RemoveOk(t: Table, k: nat)
    requires Ok(t) && k < |t.list| && t.cur == k && t.listed == multiset(t.list) - multiset{t.list[k]}
    ensures var u := t.(list := Remove(t.list, k));
      Ok(u) && Settled(u) && Shrinks(t, u) && t.list[k] !in u.list && |u.list| < |t.list|
  {
    hide Remove, Distinct, Shrinks;
    Removed(t.list, k);
    RemoveShrinks(t, k);
    assert forall x :: Holders(t.(list := Remove(t.list, k)), x) == Holders(t, x);
  }

  lemma CursorOk(t: Table, cur: nat)
    requires Ok(t) && cur <= |t.list|
    ensures Ok(t.(cur := cur)) && Shrinks(t, t.(cur := cur)) && (Settled(t) ==> Settled(t.(cur := cur)))
  {
    assert forall x :: Holders(t.(cur := cur), x) == Holders(t, x);
  }

  /** A new client, referred to by the list alone. */
  function Accept(t: Table): Table
  {
    var c := t.maxid + 1;
    t.(list := t.list + [c], refs := t.refs[c := 1], maxid := c, listed := t.listed + multiset{c})
  }

  lemma AcceptOk(t: Table)
    requires Ok(t) && Settled(t) && t.maxid >= 0
    ensures Ok(Accept(t)) && Settled(Accept(t))
  {
    hide Distinct;
    var c, u := t.maxid + 1, Accept(t);
    assert c !in t.refs && c !in t.gone;
    assert Holders(t, c) == 0;
    assert c !in t.list by { assert c in t.list <==> c in multiset(t.list); }
    DistinctMore(t.list, c);
    assert multiset(u.list) == multiset(t.list) + multiset{c};
    assert forall x :: x != c ==> Holders(u, x) == Holders(t, x);
  }

  /** References move between an iterator and its user. */
  function Hold(t: Table, c: int): Table
  { t.(borrowed := t.borrowed - multiset{c}, held := t.held + multiset{c}) }

  lemma HoldOk(t: Table, c: int)
    requires Ok(t) && t.borrowed[c] > 0
    ensures Ok(Hold(t, c))
  {
    assert forall x :: Holders(Hold(t, c), x) == Holders(t, x);
  }

  function Release(t: Table, s: seq<int>): Table
  { t.(held := t.held - multiset(s), borrowed := t.borrowed + multiset(s)) }

  lemma ReleaseOk(t: Table, s: seq<int>)
    requires Ok(t) && multiset(s) <= t.held
    ensures Ok(Release(t, s))
  {
    assert forall x :: Holders(Release(t, s), x) == Holders(t, x);
  }

  /**
   At rest, when nobody works on the table and no iterator is open: a client is allocated exactly if it is
   listed, and then has one reference; every other client ever accepted was disconnected, once.
   */
  lemma AtRest(t: Table, c: int)
    requires Ok(t) && Settled(t) && t.held == multiset{} && t.borrowed == multiset{} && t.del == {}
    requires 1 <= c <= t.maxid
    ensures c in t.list <==> c in t.refs
    ensures c in t.list ==> t.refs[c] == 1 && c !in t.gone
    ensures c !in t.list ==> multiset(t.gone)[c] == 1
  {
    assert c in t.list <==> c in multiset(t.list);
    if c in t.list {
      var k :| 0 <= k < |t.list| && t.list[k] == c;
      OnceListed(t.list, k);
      assert Holders(t, c) == 1;
    } else {
      assert Holders(t, c) == 0;
      var k :| 0 <= k < |t.gone| && t.gone[k] == c;
      OnceListed(t.gone, k);
    }
  }

  // ----- snapshots -----

  function Wanted(s: seq<int>, want: int -> bool): (r: seq<int>)
  {
    if s == [] then []
    else Wanted(s[..|s| - 1], want) + if want(s[|s| - 1]) then [s[|s| - 1]] else []
  }

  lemma WantedNone(s: seq<int>, want: int -> bool)
    ensures Wanted(s[..0], want) == []
  {}

  lemma WantedMore(s: seq<int>, want: int -> bool, i: nat)
    requires i < |s|
    ensures Wanted(s[..i + 1], want) == Wanted(s[..i], want) + if want(s[i]) then [s[i]] else []
  {
    assert s[..i + 1][..i] == s[..i];
  }

  lemma HoldSettled(t: Table, c: int)
    requires Settled(t)
    ensures Settled(Hold(t, c))
  {}

  lemma ReleaseSettled(t: Table, s: seq<int>)
    requires Settled(t)
    ensures Settled(Release(t, s))
  {}

  lemma ReleaseShrinks(t: Table, s: seq<int>)
    ensures Shrinks(t.(held := t.held - multiset(s)), Release(t, s))
  {}

  lemma ShrinksMeans(t: Table, u: Table)
    requires Shrinks(t, u)
    ensures u.held == t.held && u.del == t.del && u.maxid == t.maxid && t.gone <= u.gone
  {}

  lemma BorrowedTwice(t: Table, c: int)
    requires Ok(t) && c in t.refs
    ensures Borrow(t, c).refs[c] > 1 || c in t.del
  {}

  lemma SnapshotShrinks(t: Table, s: Table)
    requires s == t.(refs := s.refs, held := s.held) && s.refs.Keys == t.refs.Keys
    ensures Shrinks(t, s.(held := t.held)) && s.list == t.list
  {}

  /** None of the first k clients of an iterator is listed any more. */
  predicate Left(it: seq<int>, k: nat, list: seq<int>)
    requires k <= |it|
  { forall i :: 0 <= i < k ==> it[i] !in list }

  /** Clients that have left the list do not come back. */
  lemma LeftForGood(it: seq<int>, k: nat, t: Table, u: Table)
    requires k <= |it| && Left(it, k, t.list) && Shrinks(t, u)
    ensures Left(it, k, u.list)
  {
    forall i | 0 <= i < k ensures it[i] !in u.list {
      StaysOut(it[i], t, u);
    }
  }

  lemma LeftNone(it: seq<int>, list: seq<int>)
    ensures Left(it, 0, list)
  {}

  lemma StaysOut(c: int, t: Table, u: Table)
    requires Shrinks(t, u) && c !in t.list
    ensures c !in u.list
  {}

  lemma LeftMore(it: seq<int>, k: nat, list: seq<int>)
    requires k < |it| && Left(it, k, list) && it[k] !in list
    ensures Left(it, k + 1, list)
  {}

  lemma KickShrinks(t: Table, it: seq<int>, s: Table, z: Table, u: Table)
    requires Shrinks(t, s.(held := t.held)) && s.held == t.held + multiset(it)
    requires Shrinks(s, z) && Shrinks(z.(held := z.held - multiset(it)), u)
    ensures Shrinks(t, u)
  {
    assert t.held + multiset(it) - multiset(it) == t.held;
  }

  lemma TakeFirst(m: multiset<int>, it: seq<int>, i: nat)
    requires i < |it|
    ensures (m + multiset(it[i..]))[it[i]] > 0
    ensures m + multiset(it[i..]) - multiset{it[i]} == m + multiset(it[i + 1..])
  {
    assert it[i..] == [it[i]] + it[i + 1..];
  }

  lemma AcceptMeans(t: Table)
    ensures var u := Accept(t);
      && u.maxid == t.maxid + 1 && u.maxid in u.refs && u.borrowed == t.borrowed && u.list == t.list + [u.maxid]
  {}

  lemma ReturnBorrowed(t: Table, c: int)
    requires c in t.refs
    ensures var u := Borrow(t, c); c in u.refs && Return(u, c) == t
    ensures var u := Borrow(t, c); u.refs[c] == t.refs[c] + 1 && u.borrowed[c] == t.borrowed[c] + 1
    ensures var u := Borrow(t, c); u == t.(refs := u.refs, borrowed := t.borrowed + multiset{c})
  {
    var u := Borrow(t, c);
    assert Return(u, c).refs == t.refs;
    assert Return(u, c).borrowed == t.borrowed;
  }

  // ----- iteration -----

  /** What an iteration step does to the table: nothing at the end, else it borrows the client under the cursor. */
  predicate StepsTo(t: Table, v: Table, r: Option<int>)
  {
    && r == (if v.cur < |v.list| then Some(v.list[v.cur]) else None)
    && (r == None ==> v == t)
    && (r.Some? ==> r.value in t.refs && v == Borrow(t, r.value))
  }

  lemma StepsKeep(t: Table, v: Table, r: Option<int>)
    requires StepsTo(t, v, r)
    ensures v.list == t.list && v.cur == t.cur
  {}

  /** A client is not among the first k of the list. */
  predicate Passed(list: seq<int>, k: nat, c: int)
    requires k <= |list|
  { forall i :: 0 <= i < k ==> list[i] != c }

  lemma PassedNone(list: seq<int>, c: int)
    ensures Passed(list, 0, c)
  {}

  lemma PassedMore(list: seq<int>, k: nat, c: int)
    requires k < |list| && Passed(list, k, c) && list[k] != c
    ensures Passed(list, k + 1, c)
  {}

  lemma PassedAll(list: seq<int>, k: nat, c: int)
    requires k == |list| && Passed(list, k, c)
    ensures c !in list
  {}
}
