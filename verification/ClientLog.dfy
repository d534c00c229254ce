/** Who leaves the list of clients, and why: the log of what was sent, and the lists before and after. */
module ClientLog {
  import opened Text
  import opened ClientLedger
  import Session

  /** An attempt to send something to a client. */
  datatype Sent = Sent(c: int, ok: bool)

  /** The clients that could not be reached since the log was a. */
  function FailedIn(a: seq<Sent>, b: seq<Sent>): set<int>
  { set i | |a| <= i < |b| && !b[i].ok :: b[i].c }

  /** Since then every client was reached. */
  predicate Calm(a: seq<Sent>, b: seq<Sent>)
  { forall i :: |a| <= i < |b| ==> b[i].ok }

  function Reached(cs: seq<int>): seq<Sent> { seq(|cs|, i requires 0 <= i < |cs| => Sent(cs[i], true)) }

  /** Clients whose user has at least this right; without a user there is none. */
  function Entitled(right: map<int, int>, min: int): int -> bool
  { c => (if c in right then right[c] else Session.ANY) >= min }

  function Outside(x: set<int>): int -> bool { c => c !in x }

  /** Exactly the clients of x, and those that could not be reached, have left the list, and the log has grown. */
  ghost predicate Thins(l: seq<int>, a: seq<Sent>, x: set<int>, l1: seq<int>, b: seq<Sent>)
  { a <= b && l1 == Wanted(l, Outside(FailedIn(a, b) + x)) }

  // ----- filtering -----

  lemma {:induction false} WantedMember(s: seq<int>, want: int -> bool, c: int)
    ensures c in Wanted(s, want) <==> c in s && want(c)
  {
    if s != [] { WantedMember(s[..|s| - 1], want, c); }
  }

  lemma {:induction false} WantedAll(s: seq<int>, want: int -> bool)
    requires forall i :: 0 <= i < |s| ==> want(s[i])
    ensures Wanted(s, want) == s
  {
    if s != [] {
      var k := |s| - 1;
      assert s == s[..k] + [s[k]];
      WantedAll(s[..k], want);
    }
  }

  lemma {:induction false} WantedAgain(s: seq<int>, x: set<int>, y: set<int>)
    ensures Wanted(Wanted(s, Outside(x)), Outside(y)) == Wanted(s, Outside(x + y))
  {
    if s != [] {
      var k := |s| - 1;
      var r := Wanted(s[..k], Outside(x));
      WantedAgain(s[..k], x, y);
      if s[k] in x {
        assert Wanted(s, Outside(x)) == r + [] == r;
      } else {
        assert (r + [s[k]])[..|r|] == r;
      }
    }
  }

  lemma {:induction false} WantedSame(s: seq<int>, f: int -> bool, g: int -> bool)
    requires forall i :: 0 <= i < |s| ==> f(s[i]) == g(s[i])
    ensures Wanted(s, f) == Wanted(s, g)
  {
    if s != [] {
      var k := |s| - 1;
      WantedSame(s[..k], f, g);
    }
  }

  lemma {:induction false} WantedJoin(s: seq<int>, t: seq<int>, f: int -> bool)
    ensures Wanted(s + t, f) == Wanted(s, f) + Wanted(t, f)
  {
    if t == [] {
      assert s + t == s;
    } else {
      var k := |t| - 1;
      assert (s + t)[..|s + t| - 1] == s + t[..k] && (s + t)[|s + t| - 1] == t[k];
      WantedJoin(s, t[..k], f);
    }
  }

  // ----- thinning out -----

  lemma FailedSplit(a: seq<Sent>, b: seq<Sent>, c: seq<Sent>)
    requires a <= b <= c
    ensures FailedIn(a, c) == FailedIn(a, b) + FailedIn(b, c)
  {}

  lemma FailedNone(a: seq<Sent>, b: seq<Sent>)
    ensures FailedIn(a, b) == {} <==> Calm(a, b)
  {
    if !Calm(a, b) {
      var i :| |a| <= i < |b| && !b[i].ok;
      assert b[i].c in FailedIn(a, b);
    }
  }

  lemma ThinsSelf(l: seq<int>, a: seq<Sent>)
    ensures Thins(l, a, {}, l, a)
  {
    WantedAll(l, Outside(FailedIn(a, a) + {}));
  }

  lemma ThinsTrans(l: seq<int>, a: seq<Sent>, x: set<int>, l1: seq<int>, b: seq<Sent>, y: set<int>,
                   l2: seq<int>, c: seq<Sent>)
    requires Thins(l, a, x, l1, b) && Thins(l1, b, y, l2, c)
    ensures Thins(l, a, x + y, l2, c)
  {
    hide FailedIn;
    FailedSplit(a, b, c);
    WantedAgain(l, FailedIn(a, b) + x, FailedIn(b, c) + y);
    assert FailedIn(a, b) + x + (FailedIn(b, c) + y) == FailedIn(a, c) + (x + y);
  }

  /** Afterwards nobody leaves but those who cannot be reached. */
  lemma ThinsOn(l: seq<int>, a: seq<Sent>, x: set<int>, l1: seq<int>, b: seq<Sent>, l2: seq<int>, c: seq<Sent>)
    requires Thins(l, a, x, l1, b) && Thins(l1, b, {}, l2, c)
    ensures Thins(l, a, x, l2, c) && a <= b <= c
  {
    hide FailedIn, Wanted;
    ThinsTrans(l, a, x, l1, b, {}, l2, c);
    assert x + {} == x;
  }

  /** Nobody leaves who is not there. */
  lemma ThinsAbsent(l: seq<int>, a: seq<Sent>, x: set<int>)
    requires forall i :: 0 <= i < |l| ==> l[i] !in x
    ensures Thins(l, a, x, l, a)
  {
    FailedNone(a, a);
    WantedAll(l, Outside(FailedIn(a, a) + x));
  }

  lemma ThinsRemove(l: seq<int>, k: nat, a: seq<Sent>)
    requires Distinct(l) && k < |l|
    ensures Thins(l, a, {l[k]}, Remove(l, k), a)
  {
    hide FailedIn, Wanted, Outside;
    FailedNone(a, a);
    var x := FailedIn(a, a) + {l[k]};
    assert x == {l[k]};
    WithoutOne(l[..k], l[k], l[k + 1..]);
    assert l == l[..k] + ([l[k]] + l[k + 1..]);
  }

  lemma WithoutOne(s: seq<int>, c: int, t: seq<int>)
    requires (forall i :: 0 <= i < |s| ==> s[i] != c) && (forall i :: 0 <= i < |t| ==> t[i] != c)
    ensures Wanted(s + ([c] + t), Outside({c})) == s + t
  {
    hide Wanted, Outside;
    var f := Outside({c});
    WantedJoin(s, [c] + t, f);
    WantedJoin([c], t, f);
    WantedOthers(s, c);
    WantedOthers(t, c);
    WantedNobody(c);
    assert [] + t == t;
  }

  lemma WantedOthers(s: seq<int>, c: int)
    requires forall i :: 0 <= i < |s| ==> s[i] != c
    ensures Wanted(s, Outside({c})) == s
  {
    WantedAll(s, Outside({c}));
  }

  lemma WantedNobody(c: int)
    ensures Wanted([c], Outside({c})) == []
  {
    assert [c][..0] == [];
  }

  lemma ThinsMeans(l: seq<int>, a: seq<Sent>, x: set<int>, l1: seq<int>, b: seq<Sent>, c: int)
    requires Thins(l, a, x, l1, b)
    ensures |a| <= |b| && (c in l1 <==> c in l && c !in FailedIn(a, b) && c !in x)
  {
    WantedMember(l, Outside(FailedIn(a, b) + x), c);
  }

  /** A failure closes the client, and that is all. */
  lemma ThinsFailed(l: seq<int>, a: seq<Sent>, c: int, l1: seq<int>, b: seq<Sent>)
    requires Thins(l, a + [Sent(c, false)], {c}, l1, b)
    ensures Thins(l, a, {}, l1, b) && c in FailedIn(a, b)
  {
    var a1 := a + [Sent(c, false)];
    assert a <= b;
    FailedSplit(a, a1, b);
    assert FailedIn(a, a1) == {c} by { assert a1[|a|] == Sent(c, false); }
    assert FailedIn(a1, b) + {c} == FailedIn(a, b) + {};
  }

  lemma ThinsReached(l: seq<int>, a: seq<Sent>, c: int)
    ensures Thins(l, a, {}, l, a + [Sent(c, true)]) && Calm(a, a + [Sent(c, true)])
  {
    FailedNone(a, a + [Sent(c, true)]);
    WantedAll(l, Outside(FailedIn(a, a + [Sent(c, true)]) + {}));
  }

  /** If all were reached, only those of x have left. */
  lemma ThinsCalm(l: seq<int>, a: seq<Sent>, l1: seq<int>, b: seq<Sent>)
    requires Thins(l, a, {}, l1, b) && Calm(a, b)
    ensures l1 == l
  {
    FailedNone(a, b);
    WantedAll(l, Outside(FailedIn(a, b) + {}));
  }

  /** The same clients may be named in another way. */
  lemma ThinsSame(l: seq<int>, a: seq<Sent>, x: set<int>, y: set<int>, l1: seq<int>, b: seq<Sent>)
    requires Thins(l, a, x, l1, b) && forall i :: 0 <= i < |l| ==> (l[i] in x <==> l[i] in y)
    ensures Thins(l, a, y, l1, b)
  {
    WantedSame(l, Outside(FailedIn(a, b) + x), Outside(FailedIn(a, b) + y));
  }

  // ----- the log itself -----

  /** Only clients that were accepted are in the log. */
  predicate Logged(sent: seq<Sent>, maxid: int) { forall i :: 0 <= i < |sent| ==> 1 <= sent[i].c <= maxid }

  lemma LoggedMore(sent: seq<Sent>, maxid: int, c: int, ok: bool)
    requires Logged(sent, maxid) && 1 <= c <= maxid
    ensures Logged(sent + [Sent(c, ok)], maxid)
  {}

  /** Something was sent to this client since the log was a. */
  ghost predicate Addressed(a: seq<Sent>, b: seq<Sent>, c: int)
  { exists i :: |a| <= i < |b| && b[i].c == c }

  /** What is sent when a client logs out: whoever has the right of a user is told, unless it never logged in. */
  function LoggedOut(c: int, list: seq<int>, open: set<int>, right: map<int, int>): seq<Sent>
  { if c in open then [] else Reached(Wanted(list, Entitled(right, Session.USER))) }

  /** Closing a client that nobody else refers to tells the others, if all can be reached; otherwise nobody is told. */
  predicate ClosesCalmly(c: int, t: Table, open: set<int>, right: map<int, int>, a: seq<Sent>,
                         l: seq<int>, b: seq<Sent>)
    requires c in t.refs
  {
    && (t.refs[c] == 1 && c !in t.del && Calm(a, b) ==> b == a + LoggedOut(c, l, open, right))
    && (t.refs[c] > 1 || c in t.del ==> b == a)
  }

  lemma SameClose(c: int, t: Table, u: Table, open: set<int>, right: map<int, int>, a: seq<Sent>,
                  l: seq<int>, b: seq<Sent>)
    requires c in u.refs && ClosesCalmly(c, u, open, right, a, l, b) && t.refs == u.refs && t.del == u.del
    ensures ClosesCalmly(c, t, open, right, a, l, b)
  {}

  lemma NotCalm(a: seq<Sent>, c: int, b: seq<Sent>)
    requires a + [Sent(c, false)] <= b
    ensures forall b1 :: b <= b1 ==> !Calm(a, b1)
  {
    assert b[|a|] == Sent(c, false);
  }

  lemma ThinsGrows(l: seq<int>, a: seq<Sent>, x: set<int>, l1: seq<int>, b: seq<Sent>)
    requires Thins(l, a, x, l1, b)
    ensures a <= b
  {}

  /** The broadcast so far: the wanted ones among the first k clients of a list that has not changed. */
  predicate ToldSoFar(l: seq<int>, l1: seq<int>, k: nat, want: int -> bool, a: seq<Sent>, b: seq<Sent>)
  { l1 == l && k <= |l| && b == a + Reached(Wanted(l[..k], want)) }

  lemma ToldNone(l: seq<int>, a: seq<Sent>, want: int -> bool)
    ensures ToldSoFar(l, l, 0, want, a, a)
  {
    assert a + [] == a;
  }

  lemma CalmSplit(a: seq<Sent>, b: seq<Sent>, c: seq<Sent>)
    requires a <= b <= c
    ensures Calm(a, c) <==> Calm(a, b) && Calm(b, c)
  {}

  lemma TellMore(l: seq<int>, l0: seq<int>, k: nat, want: int -> bool, a: seq<Sent>, b: seq<Sent>,
                 l1: seq<int>, c: seq<Sent>)
    requires k < |l0| && a <= b <= c && (Calm(a, b) ==> ToldSoFar(l, l0, k, want, a, b))
    requires Calm(b, c) ==> l1 == l0 && c == b + Reached(if want(l0[k]) then [l0[k]] else [])
    ensures Calm(a, c) ==> ToldSoFar(l, l1, k + 1, want, a, c)
  {
    hide Calm;
    CalmSplit(a, b, c);
    if Calm(a, c) {
      WantedMore(l, want, k);
      var w, x := Wanted(l[..k], want), if want(l0[k]) then [l0[k]] else [];
      assert Reached(w + x) == Reached(w) + Reached(x);
      assert a + Reached(w) + Reached(x) == a + (Reached(w) + Reached(x));
    }
  }

  lemma ToldAll(l: seq<int>, l1: seq<int>, k: nat, want: int -> bool, a: seq<Sent>, b: seq<Sent>)
    requires k == |l1|
    ensures ToldSoFar(l, l1, k, want, a, b) ==> b == a + Reached(Wanted(l, want))
  {
    assert l[..|l|] == l;
  }

  lemma CalmLogOut(c: int, l: seq<int>, a: seq<Sent>, l1: seq<int>, b: seq<Sent>, open: set<int>, right: map<int, int>)
    requires Thins(l, a, {}, l1, b)
    requires Calm(a, b) ==> b == a + LoggedOut(c, l, open, right)
    ensures Calm(a, b) ==> b == a + LoggedOut(c, l1, open, right)
  {
    if Calm(a, b) { ThinsCalm(l, a, l1, b); }
  }

  lemma OkDistinct(t: Table)
    requires Ok(t)
    ensures Distinct(t.list)
  {}

  lemma AllocatedIsAccepted(t: Table, c: int)
    requires Ok(t) && c in t.refs
    ensures 1 <= c <= t.maxid
  {}

  lemma LoggedLater(sent: seq<Sent>, maxid: int, later: int)
    requires Logged(sent, maxid) && maxid <= later
    ensures Logged(sent, later)
  {}

  // ----- several clients -----

  function Elems(s: seq<int>): set<int> { set c | c in s }

  ghost predicate AllAddressed(s: seq<int>, a: seq<Sent>, b: seq<Sent>)
  { forall i :: 0 <= i < |s| ==> Addressed(a, b, s[i]) }

  lemma ElemsNone(s: seq<int>, a: seq<Sent>)
    ensures Elems(s[..0]) == {} && AllAddressed(s[..0], a, a)
  {}

  lemma ElemsMore(s: seq<int>, k: nat)
    requires k < |s|
    ensures Elems(s[..k + 1]) == Elems(s[..k]) + {s[k]}
  {
    assert s[..k + 1] == s[..k] + [s[k]];
  }

  lemma AddressedLater(s: seq<int>, a: seq<Sent>, b: seq<Sent>, c: seq<Sent>)
    requires b <= c && AllAddressed(s, a, b)
    ensures AllAddressed(s, a, c)
  {
    forall i | 0 <= i < |s| ensures Addressed(a, c, s[i]) {
      assert Addressed(a, b, s[i]);
      var j :| |a| <= j < |b| && b[j].c == s[i];
      assert c[j].c == s[i];
    }
  }

  lemma AddressedMore(s: seq<int>, k: nat, a: seq<Sent>, b: seq<Sent>, c: seq<Sent>)
    requires k < |s| && a <= b <= c && AllAddressed(s[..k], a, b) && Addressed(b, c, s[k])
    ensures AllAddressed(s[..k + 1], a, c)
  {
    AddressedLater(s[..k], a, b, c);
    var s1 := s[..k + 1];
    forall i | 0 <= i < |s1| ensures Addressed(a, c, s1[i]) {
      if i < k { assert Addressed(a, c, s[..k][i]); }
    }
  }

  lemma AllAddressedMeans(s: seq<int>, a: seq<Sent>, b: seq<Sent>)
    requires AllAddressed(s, a, b)
    ensures forall c :: c in s ==> Addressed(a, b, c)
  {
    hide Addressed;
  }

  // ----- who is a member after a run -----

  /**
   From a list l with ids up to m to l1 with ids up to m1: nobody comes back or stays who could not be reached or is
   one of those that must leave; and nobody is missing without having been unreachable or one of those that may.
   */
  ghost predicate Members(l: seq<int>, a: seq<Sent>, m: int, must: set<int>, may: set<int>,
                          l1: seq<int>, b: seq<Sent>, m1: int)
  {
    && a <= b && m <= m1
    && (forall c :: c in l1 ==> c <= m1 && c !in FailedIn(a, b) && (c <= m ==> c in l && c !in must))
    && (forall c :: 1 <= c <= m1 && c !in l1 ==> (c <= m && c !in l) || c in FailedIn(a, b) || c in may)
  }

  lemma MembersSelf(l: seq<int>, a: seq<Sent>, m: int)
    requires forall c :: c in l ==> c <= m
    ensures Members(l, a, m, {}, {}, l, a, m)
  {
    FailedNone(a, a);
  }

  lemma FailedIsLogged(a: seq<Sent>, b: seq<Sent>, m: int, c: int)
    requires Logged(b, m) && c in FailedIn(a, b)
    ensures c <= m
  {}

  lemma MembersTrans(l: seq<int>, a: seq<Sent>, m: int, must: set<int>, may: set<int>,
                     l1: seq<int>, b: seq<Sent>, m1: int, must1: set<int>, may1: set<int>,
                     l2: seq<int>, c: seq<Sent>, m2: int)
    requires Members(l, a, m, must, may, l1, b, m1) && Members(l1, b, m1, must1, may1, l2, c, m2) && Logged(b, m1)
    ensures Members(l, a, m, must + must1, may + may1, l2, c, m2)
  {
    hide FailedIn, Logged;
    FailedSplit(a, b, c);
    forall x | x in l2 ensures x <= m2 && x !in FailedIn(a, c) && (x <= m ==> x in l && x !in must + must1) {
      if x in FailedIn(a, b) { FailedIsLogged(a, b, m1, x); }
    }
  }

  lemma ThinsMembers(l: seq<int>, a: seq<Sent>, x: set<int>, l1: seq<int>, b: seq<Sent>, m: int)
    requires Thins(l, a, x, l1, b) && forall c :: c in l ==> c <= m
    ensures Members(l, a, m, x, x, l1, b, m)
  {
    hide FailedIn, Thins, Wanted;
    ThinsGrows(l, a, x, l1, b);
    forall c { ThinsMeans(l, a, x, l1, b, c); }
  }

  /** The same with a new client at the end of the list. */
  lemma NewMember(l: seq<int>, a: seq<Sent>, l1: seq<int>, b: seq<Sent>, m: int)
    requires Thins(l + [m + 1], a, {}, l1, b) && forall c :: c in l ==> c <= m
    ensures Members(l, a, m, {}, {}, l1, b, m + 1)
  {
    hide FailedIn, Thins, Wanted;
    ThinsGrows(l + [m + 1], a, {}, l1, b);
    forall c { ThinsMeans(l + [m + 1], a, {}, l1, b, c); }
  }

  lemma ListedIsAccepted(t: Table)
    requires Ok(t) && Settled(t)
    ensures forall c :: c in t.list ==> 1 <= c <= t.maxid
  {
    forall c | c in t.list ensures 1 <= c <= t.maxid {
      assert c in multiset(t.list);
      assert Holders(t, c) > 0;
    }
  }

  lemma NotAllocated(t: Table, c: int)
    requires Ok(t) && Settled(t) && c !in t.refs
    ensures forall i :: 0 <= i < |t.list| ==> t.list[i] !in {c}
  {
    forall i | 0 <= i < |t.list| ensures t.list[i] != c {
      assert t.list[i] in multiset(t.list);
      assert Holders(t, t.list[i]) > 0;
    }
  }

  lemma KickedAre(l: seq<int>, ids: set<int>, want: int -> bool)
    requires forall c :: want(c) <==> c in ids
    ensures forall i :: 0 <= i < |l| ==> (l[i] in Elems(Wanted(l, want)) <==> l[i] in ids)
    ensures forall c :: c in l && c in ids ==> c in Wanted(l, want)
  {
    forall c ensures c in Wanted(l, want) <==> c in l && c in ids { WantedMember(l, want, c); }
  }

  lemma MembersMeans(may: set<int>, l: seq<int>, b: seq<Sent>, m: int)
    requires Members([], [], 0, {}, may, l, b, m)
    ensures forall c :: c in l ==> c !in FailedIn([], b)
    ensures forall c :: 1 <= c <= m && c !in l ==> c in FailedIn([], b) || c in may
  {
    hide FailedIn;
  }

  lemma MembersGrow(l: seq<int>, a: seq<Sent>, m: int, must: set<int>, may: set<int>,
                    l1: seq<int>, b: seq<Sent>, m1: int)
    requires Members(l, a, m, must, may, l1, b, m1)
    ensures m <= m1 && a <= b
  {}

  lemma MembersWeaken(l: seq<int>, a: seq<Sent>, m: int, must: set<int>, less: set<int>, may: set<int>, more: set<int>,
                      l1: seq<int>, b: seq<Sent>, m1: int)
    requires Members(l, a, m, must, may, l1, b, m1) && less <= must && may <= more
    ensures Members(l, a, m, less, more, l1, b, m1)
  {
    hide FailedIn;
  }

  // ----- a broadcast under way -----

  /**
   A broadcast that began at the table t with the log a has come to the table s, from which the client c was
   borrowed; the table is v now and the log is b.
   */
  ghost predicate Telling(t: Table, s: Table, v: Table, c: Option<int>, a: seq<Sent>, b: seq<Sent>, want: int -> bool)
  {
    && Ok(s) && Settled(s) && s.borrowed == t.borrowed && Shrinks(t, s)
    && s.cur <= |s.list| && v.list == s.list && v.cur == s.cur && StepsTo(s, v, c)
    && Thins(t.list, a, {}, s.list, b)
    && (Calm(a, b) ==> ToldSoFar(t.list, s.list, s.cur, want, a, b))
  }

  lemma TellingMeans(t: Table, s: Table, v: Table, c: int, a: seq<Sent>, b: seq<Sent>, want: int -> bool)
    requires Telling(t, s, v, Some(c), a, b, want)
    ensures Ok(s) && Settled(s) && c in s.refs && v == Borrow(s, c)
    ensures v.list == s.list && v.cur == s.cur < |s.list| && s.list[s.cur] == c
  {
    hide Ok, Shrinks, Settled, Thins, Calm, ToldSoFar, Borrow;
  }

  /** Told or not, the client under the cursor is given back, and the broadcast goes on with the next. */
  lemma TellingMore(t: Table, s: Table, u: Table, c: int, a: seq<Sent>, b: seq<Sent>, v: Table, b1: seq<Sent>,
                    v1: Table, next: Option<int>, want: int -> bool)
    requires Telling(t, s, u, Some(c), a, b, want)
    requires Ok(v) && Settled(v) && Shrinks(s, v) && v.borrowed == s.borrowed && Thins(s.list, b, {}, v.list, b1)
    requires Calm(b, b1) ==> b1 == b + Reached(if want(c) then [c] else []) && v == s
    requires var k := if v.cur < |v.list| then v.cur + 1 else v.cur; v1.cur == k && StepsTo(v.(cur := k), v1, next)
    ensures Telling(t, v.(cur := v1.cur), v1, next, a, b1, want)
  {
    hide Ok, Shrinks, Settled, Thins, Calm, Reached, ToldSoFar;
    var w := v.(cur := v1.cur);
    ThinsOn(t.list, a, {}, s.list, b, v.list, b1);
    TellMore(t.list, s.list, s.cur, want, a, b, v.list, b1);
    CalmSplit(a, b, b1);
    CursorInList(v);
    CursorOk(v, v1.cur);
    ShrinksTrans(t, s, v);
    ShrinksTrans(t, v, w);
  }

  lemma TellingBegins(t: Table, v: Table, c: Option<int>, a: seq<Sent>, want: int -> bool)
    requires Ok(t) && Settled(t) && StepsTo(t.(cur := 0), v, c)
    ensures Telling(t, t.(cur := 0), v, c, a, a, want)
  {
    hide Ok, Shrinks, Settled, Thins, Calm, ToldSoFar;
    CursorOk(t, 0);
    ThinsSelf(t.list, a);
    ToldNone(t.list, a, want);
  }

  lemma TellingLive(t: Table, s: Table, v: Table, c: Option<int>, a: seq<Sent>, b: seq<Sent>, want: int -> bool)
    requires Telling(t, s, v, c, a, b, want) && c.Some?
    ensures Live(v) <= Live(t)
  {
    hide Ok, Settled, Shrinks, Live, Thins, Calm, ToldSoFar, Borrow;
    BorrowOk(s, c.value);
    ShrinksTrans(t, s, v);
    ShrinksLive(t, v);
  }

  lemma TellingEnds(t: Table, s: Table, v: Table, a: seq<Sent>, b: seq<Sent>, want: int -> bool)
    requires Telling(t, s, v, None, a, b, want)
    ensures Shrinks(t, v) && v.borrowed == t.borrowed && Thins(t.list, a, {}, v.list, b)
    ensures Calm(a, b) ==> b == a + Reached(Wanted(t.list, want))
  {
    hide Ok, Settled, Shrinks, Thins, Calm, Wanted, Reached;
    ToldAll(t.list, s.list, s.cur, want, a, b);
  }
}
