/** The bound of CapacityHolds is the best there is: n sessions after k put-backs can be reached
    exactly if n is at most 32 + k. */
module SessionOverflow {
  import opened Wrappers
  import opened Sessions
  import opened SessionRuns
  import opened SessionCapacity

  /** A name of a given length, for drawing fresh ones. */
  function Name(n: nat): string {
    seq(n, _ => 'x')
  }

  /** Everything drawn is shorter than `n`, and every handler is numbered below `q`. */
  ghost predicate Below(s: State, n: nat, q: Pid) {
    && (forall x <- s.drawn :: |x| < n)
    && (forall t <- s.sessions :: |t| < n)
    && (forall p <- s.procs :: p < q)
  }

  /** What a complete start does: one more session, and everybody else as before. */
  ghost predicate OneMore(s: State, s': State, n: nat, q: Pid) {
    && s'.sessions == s.sessions[Name(n) := Session(Name(n + 1), 0)]
    && s'.pending == s.pending && s'.putBacks == s.putBacks
    && s'.procs == s.procs[q := Finished]
    && Below(s', n + 2, q + 1)
  }

  lemma StartOne(s: State, n: nat, q: Pid) returns (es: seq<Event>)
    requires Below(s, n, q) && |s.sessions| + s.pending < MAX_SESSIONS
    ensures Steps(s, es).Some? && OneMore(s, Steps(s, es).value, n, q)
  {
    assert |Name(n)| == n && |Name(n + 1)| == n + 1;
    var s1 := Step(s, Reserve(q, Name(n))).value;
    assert s1 == Go(s, q, Starting(Name(n))).(pending := s.pending + 1, drawn := s.drawn + {Name(n)});
    var s2 := Step(s1, CreateOk(q, Name(n + 1))).value;
    var s3 := Step(s2, Insert(q, 0)).value;
    var s4 := Step(s3, Release(q)).value;
    es := [Reserve(q, Name(n)), CreateOk(q, Name(n + 1)), Insert(q, 0), Release(q)];
    assert s4.procs == s.procs[q := Finished];
    assert s4.sessions == s.sessions[Name(n) := Session(Name(n + 1), 0)];
    hide Step, Below, OneMore;
    assert es[1..] == [CreateOk(q, Name(n + 1)), Insert(q, 0), Release(q)];
    assert es[1..][1..] == [Insert(q, 0), Release(q)];
    OneStep(s3, Release(q));
    assert [Insert(q, 0), Release(q)][1..] == [Release(q)];
    assert Steps(s2, es[1..][1..]) == Some(s4);
    assert Steps(s1, es[1..]) == Some(s4);
    assert Steps(s, es) == Some(s4);
  }

  /** What `k` complete starts do. */
  ghost predicate Filled(s: State, s': State, n: nat, k: nat) {
    && |s'.sessions| == |s.sessions| + k
    && (forall t <- s'.sessions :: t in s.sessions || |t| >= n)
    && s'.pending == s.pending && s'.putBacks == s.putBacks
    && (forall p <- s.procs :: p in s'.procs && s'.procs[p] == s.procs[p])
  }

  lemma FilledMore(s: State, s1: State, s2: State, n: nat, q: Pid, k: nat)
    requires Below(s, n, q) && OneMore(s, s1, n, q) && Filled(s1, s2, n + 2, k)
    ensures Filled(s, s2, n, k + 1)
  {
    assert |Name(n)| == n;
    PutSize(s.sessions, Name(n), Session(Name(n + 1), 0));
  }

  lemma {:induction false} Fill(s: State, n: nat, q: Pid, k: nat) returns (es: seq<Event>)
    requires Below(s, n, q) && |s.sessions| + s.pending + k <= MAX_SESSIONS
    ensures Steps(s, es).Some?
    ensures Below(Steps(s, es).value, n + 2 * k, q + k) && Filled(s, Steps(s, es).value, n, k)
    decreases k
  {
    if k == 0 {
      es := [];
    } else {
      var first := StartOne(s, n, q);
      var s1 := Steps(s, first).value;
      assert |s1.sessions| + s1.pending + (k - 1) <= MAX_SESSIONS by {
        PutSize(s.sessions, Name(n), Session(Name(n + 1), 0));
      }
      assert Below(s1, n + 2, q + 1);
      hide Steps, Step, Below, OneMore, Filled;
      var rest := Fill(s1, n + 2, q + 1, k - 1);
      StepsAppend(s, first, rest);
      FilledMore(s, s1, Steps(s1, rest).value, n, q, k - 1);
      es := first + rest;
    }
  }

  /** A cleanup takes everything out. */
  lemma TakeAll(s: State, n: nat, q: Pid)
    requires Below(s, n, q)
    ensures Step(s, Take(q, true, 0)) == Some(Go(s, q, Cleaning(s.sessions)).(sessions := map[]))
    ensures Below(Go(s, q, Cleaning(s.sessions)).(sessions := map[]), n, q + 1)
  {
    assert Expired(s.sessions, true, 0) == s.sessions;
    assert s.sessions - s.sessions.Keys == map[];
  }

  /** Cleanups that still hold something. */
  ghost predicate Holders(s: State, ps: set<Pid>) {
    forall p <- ps :: p in s.procs && s.procs[p].Cleaning? && s.procs[p].todo != map[]
  }

  /** An empty table, with `k` cleanups that have all that was ever in it. */
  ghost predicate Collected(s: State, ps: set<Pid>, n: nat, q: Pid, k: nat) {
    s.sessions == map[] && s.pending == 0 && s.putBacks == 0 && Below(s, n, q) && Holders(s, ps) && |ps| == k
  }

  lemma {:induction false} Collect(k: nat) returns (es: seq<Event>, ps: set<Pid>)
    ensures Steps(INITIAL, es).Some? && Collected(Steps(INITIAL, es).value, ps, 2 * k, 2 * k, k)
  {
    if k == 0 {
      es, ps := [], {};
    } else {
      es, ps := Collect(k - 1);
      var n := 2 * k - 2;
      var s := Steps(INITIAL, es).value;
      var first := StartOne(s, n, n);
      var s1 := Steps(s, first).value;
      CollectOne(s, s1, ps, n, k - 1);
      hide Steps, Step, Collected, OneMore;
      OneStep(s1, Take(n + 1, true, 0));
      StepsAppend(INITIAL, es, first);
      StepsAppend(INITIAL, es + first, [Take(n + 1, true, 0)]);
      es := es + first + [Take(n + 1, true, 0)];
      ps := ps + {n + 1};
    }
  }

  lemma CollectOne(s: State, s1: State, ps: set<Pid>, n: nat, k: nat)
    requires Collected(s, ps, n, n, k) && OneMore(s, s1, n, n)
    ensures Step(s1, Take(n + 1, true, 0)).Some?
    ensures Collected(Step(s1, Take(n + 1, true, 0)).value, ps + {n + 1}, n + 2, n + 2, k + 1)
  {
    assert Name(n) in s1.sessions;
    TakeAll(s1, n + 2, n + 1);
    assert forall p <- ps :: p < n;
    hide Step;
    assert Holders(Go(s1, n + 1, Cleaning(s1.sessions)).(sessions := map[]), ps + {n + 1});
  }

  /** Each of them fails to remove one islet, and puts its session back. */
  lemma {:induction false} PutBackAll(s: State, owner: map<string, string>, ps: set<Pid>) returns (es: seq<Event>)
    requires Account(s, owner) && Holders(s, ps)
    ensures Steps(s, es).Some?
    ensures var s' := Steps(s, es).value; |s'.sessions| == |s.sessions| + |ps| && s'.putBacks == s.putBacks + |ps|
    decreases |ps|
  {
    if ps == {} {
      es := [];
    } else {
      var p :| p in ps;
      var token :| token in s.procs[p].todo;
      var e := CleanupFails(p, token, false);
      assert Clear(s.sessions, s.procs[p]) && HoldsToken(s.procs[p], token);
      PutBack(s, p, token, ps);
      AccountStep(s, e, owner);
      hide Account, Step, Holders, Steps;
      OneStep(s, e);
      var rest := PutBackAll(Step(s, e).value, Bind(s, e, owner), ps - {p});
      StepsAppend(s, [e], rest);
      es := [e] + rest;
    }
  }

  lemma PutBack(s: State, p: Pid, token: string, ps: set<Pid>)
    requires Holders(s, ps) && p in ps && token in s.procs[p].todo && token !in s.sessions
    ensures Step(s, CleanupFails(p, token, false)).Some?
    ensures var s' := Step(s, CleanupFails(p, token, false)).value;
            |s'.sessions| == |s.sessions| + 1 && s'.putBacks == s.putBacks + 1 && Holders(s', ps - {p})
  {
    PutSize(s.sessions, token, s.procs[p].todo[token]);
  }

  lemma {:induction false} NewPid(ps: set<Pid>) returns (q: Pid)
    ensures forall p <- ps :: p < q
    decreases ps
  {
    q := 0;
    if ps != {} {
      var p :| p in ps;
      var r := NewPid(ps - {p});
      q := if p < r then r else p + 1;
      assert forall x <- ps :: x == p || x in ps - {p};
    }
  }

  /** A session that is ended leaves the table. */
  lemma EndOne(s: State) returns (es: seq<Event>)
    requires s.sessions != map[]
    ensures Steps(s, es).Some?
    ensures var s' := Steps(s, es).value; |s'.sessions| == |s.sessions| - 1 && s'.putBacks == s.putBacks
  {
    assert s.sessions.Keys != {};
    var token :| token in s.sessions;
    var q := NewPid(s.procs.Keys);
    assert q !in s.procs;
    var s1 := Step(s, End(q, token, s.sessions[token].used)).value;
    var s2 := Step(s1, EndRemoves(q)).value;
    var s3 := Step(s2, Forget(q)).value;
    assert s3.sessions.Keys == s.sessions.Keys - {token};
    assert |s3.sessions.Keys| == |s.sessions.Keys| - 1;
    OneStep(s, End(q, token, s.sessions[token].used));
    OneStep(s1, EndRemoves(q));
    OneStep(s2, Forget(q));
    hide Step;
    StepsAppend(s, [End(q, token, s.sessions[token].used)], [EndRemoves(q)]);
    es := [End(q, token, s.sessions[token].used)] + [EndRemoves(q)];
    StepsAppend(s, es, [Forget(q)]);
    es := es + [Forget(q)];
  }

  lemma {:induction false} EndMany(s: State, n: nat) returns (es: seq<Event>)
    requires n <= |s.sessions|
    ensures Steps(s, es).Some?
    ensures var s' := Steps(s, es).value; |s'.sessions| == n && s'.putBacks == s.putBacks
    decreases |s.sessions| - n
  {
    if n == |s.sessions| {
      es := [];
    } else {
      var first := EndOne(s);
      hide Steps;
      var rest := EndMany(Steps(s, first).value, n);
      StepsAppend(s, first, rest);
      es := first + rest;
    }
  }

  /** As full as it gets with `k` put-backs. */
  lemma Fullest(k: nat) returns (es: seq<Event>)
    ensures Steps(INITIAL, es).Some?
    ensures var s := Steps(INITIAL, es).value; |s.sessions| == 32 + k && s.putBacks == k
  {
    var first, ps := Collect(k);
    var s1 := Steps(INITIAL, first).value;
    var second := Fill(s1, 2 * k, 2 * k, MAX_SESSIONS);
    var s2 := Steps(s1, second).value;
    assert Holders(s2, ps);
    hide Steps, Holders;
    StepsAppend(INITIAL, first, second);
    var owner := AccountRun(INITIAL, first + second, map[]);
    var third := PutBackAll(s2, owner, ps);
    StepsAppend(INITIAL, first + second, third);
    es := first + second + third;
  }

  /** What can be reached, exactly. */
  lemma ReachedExactly(n: nat, k: nat)
    ensures (exists es :: && Steps(INITIAL, es).Some?
                          && |Steps(INITIAL, es).value.sessions| == n && Steps(INITIAL, es).value.putBacks == k) <==>
            n <= 32 + k
  {
    if n <= MAX_SESSIONS + k {
      var full := Fullest(k);
      var rest := EndMany(Steps(INITIAL, full).value, n);
      StepsAppend(INITIAL, full, rest);
      assert Steps(INITIAL, full + rest).Some?;
    }
    forall es | Steps(INITIAL, es).Some? && Steps(INITIAL, es).value.putBacks == k
      ensures |Steps(INITIAL, es).value.sessions| <= MAX_SESSIONS + k
    {
      CapacityHolds(es);
    }
  }
}
