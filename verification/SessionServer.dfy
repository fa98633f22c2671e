/**
 The handlers of the web example as the source writes them: critical sections under the mutex,
 and slow operations between them, during which every other handler may take any steps. Each
 critical section that changes anything is one step of SessionRuns.
 */
module SessionServer {
  import opened Wrappers
  import opened Sessions
  import opened SessionRuns

  // --------------------------------------------------------------- steps of the others

  /** The handler that takes a step. */
  function Handler(e: Event): Option<Pid> {
    match e
    case Touch(_, _) => None
    case _ => Some(e.p)
  }

  /** Nobody else moves a handler. */
  lemma OthersStep(s: State, e: Event, p: Pid)
    requires Step(s, e).Some? && Handler(e) != Some(p)
    ensures var s' := Step(s, e).value; At(s', p) == At(s, p) && (p in s'.procs <==> p in s.procs)
  {
  }

  /** What a handler answers. Of the first three, all but Joined are errors of `current`. */
  datatype Answer = Joined | Unauthorized | OpenFailed | Full | Failed | Started | Deleted

  class Server {
    var s: State
    ghost var owner: map<string, string>

    ghost predicate Valid()
      reads this
    {
      OwnerInv(s, owner) && CapacityInv(s)
    }

    constructor ()
      ensures Valid() && s == INITIAL
    {
      s, owner := INITIAL, map[];
    }

    /** The bookkeeping after a critical section. */
    ghost method Account(before: State, e: Event)
      requires OwnerInv(before, owner) && CapacityInv(before) && Step(before, e) == Some(s)
      modifies this`owner
      ensures Valid()
    {
      hide OwnerInv, CapacityInv, Step;
      OwnerStep(before, e, owner);
      CapacityStep(before, e);
      owner := Bind(before, e, owner);
    }

    /** What the others do while the mutex is free. */
    method Others(p: Pid)
      requires Valid()
      modifies this
      ensures Valid() && At(s, p) == old(At(s, p)) && (p in s.procs <==> p in old(s.procs))
    {
      hide OwnerInv, CapacityInv, Step;
      var rounds: nat := *;
      while rounds > 0
        invariant Valid() && At(s, p) == old(At(s, p)) && (p in s.procs <==> p in old(s.procs))
      {
        var e: Event := *;
        if Handler(e) != Some(p) && Step(s, e).Some? {
          OthersStep(s, e, p);
          ghost var before := s;
          s := Step(s, e).value;
          Account(before, e);
        }
        rounds := rounds - 1;
      }
    }

    // ---------------------------------------------------------------- critical sections

    /** The test at the beginning of `start`, which changes nothing. */
    method Test(token: string, now: int) returns (alive: bool)
      ensures alive <==> token in s.sessions && Alive(s.sessions[token], now)
    {
      alive := token in s.sessions && Alive(s.sessions[token], now);
    }

    /** The test and the update in `current`. */
    method Touch(token: string, now: int) returns (item: Option<Session>)
      requires Valid()
      modifies this
      ensures Valid() && Step(old(s), Event.Touch(token, now)) == Some(s)
      ensures item.Some? <==> token in old(s.sessions) && Alive(old(s.sessions)[token], now)
      ensures item.Some? ==> token in s.sessions && s.sessions[token] == item.value
      ensures item.Some? ==> item.value == old(s.sessions)[token].(used := now)
    {
      ghost var before := s;
      item := None;
      if token in s.sessions && Alive(s.sessions[token], now) {
        var touched := s.sessions[token].(used := now);
        s := s.(sessions := s.sessions[token := touched]);
        item := Some(touched);
      }
      hide OwnerInv, CapacityInv;
      Account(before, Event.Touch(token, now));
    }

    /** The reservation in `start`: an open start counts like a session. */
    method Reserve(p: Pid, token: string) returns (ok: bool)
      requires Valid() && p !in s.procs && token !in s.drawn
      modifies this
      ensures Valid() && Step(old(s), Event.Reserve(p, token)) == Some(s)
      ensures ok <==> |old(s.sessions)| + old(s.pending) < 32
      ensures p in s.procs && At(s, p) == if ok then Starting(token) else Finished
    {
      ghost var before := s;
      ok := |s.sessions| + s.pending < MAX_SESSIONS;
      s := Go(s, p, if ok then Starting(token) else Finished);
      if ok {
        s := s.(pending := s.pending + 1, drawn := s.drawn + {token});
      }
      hide OwnerInv, CapacityInv;
      Account(before, Event.Reserve(p, token));
    }

    /** The deferred end of a reservation. */
    method Release(p: Pid)
      requires Valid() && At(s, p) == Settled
      modifies this
      ensures Valid() && Step(old(s), Event.Release(p)) == Some(s) && p in s.procs && At(s, p) == Finished
              && s.pending >= 0
    {
      HeldReservation(s, p);
      ghost var before := s;
      s := Go(s, p, Finished).(pending := s.pending - 1);
      hide OwnerInv, CapacityInv;
      Account(before, Event.Release(p));
    }

    /** A new session under its token. */
    method Insert(p: Pid, now: int)
      requires Valid() && At(s, p).Created?
      modifies this
      ensures Valid() && Step(old(s), Event.Insert(p, now)) == Some(s) && At(s, p) == Settled
    {
      ghost var before := s;
      var proc := At(s, p);
      s := Go(s, p, Settled).(sessions := s.sessions[proc.token := Session(proc.id, now)]);
      hide OwnerInv, CapacityInv;
      Account(before, Event.Insert(p, now));
    }

    /** The deletion in `end`. */
    method Forget(p: Pid)
      requires Valid() && At(s, p).Ended?
      modifies this
      ensures Valid() && Step(old(s), Event.Forget(p)) == Some(s) && At(s, p) == Finished
    {
      ghost var before := s;
      s := Go(s, p, Finished).(sessions := s.sessions - {At(s, p).token});
      hide OwnerInv, CapacityInv;
      Account(before, Event.Forget(p));
    }

    /** The first loop of `Cleanup`, which deletes from the map it ranges over: the entries come
        in any order, and none of them is lost or taken twice. */
    method Split(sessions: Table, all: bool, now: int) returns (expired: Table, kept: Table)
      ensures expired == Expired(sessions, all, now) && kept == sessions - expired.Keys
      ensures |kept| + |expired| == |sessions|
    {
      hide Alive;
      kept, expired := sessions, map[];
      var left := sessions.Keys;
      while left != {}
        invariant left <= sessions.Keys
        invariant expired == Expired(sessions - left, all, now) && kept == sessions - expired.Keys
        decreases left
      {
        var token :| token in left;
        ExpiredNext(sessions, left, token, all, now);
        hide Expired;
        left := left - {token};
        if all || !Alive(kept[token], now) {
          expired := expired[token := kept[token]];
          kept := kept - {token};
        }
      }
      assert sessions - {} == sessions;
      Partition(sessions, kept, expired);
    }

    method Take(p: Pid, all: bool, now: int) returns (expired: Table)
      requires Valid() && p !in s.procs
      modifies this
      ensures Valid() && Step(old(s), Event.Take(p, all, now)) == Some(s)
      ensures expired == Expired(old(s.sessions), all, now) && At(s, p) == Cleaning(expired)
      ensures |s.sessions| + |expired| == |old(s.sessions)|
    {
      hide OwnerInv, CapacityInv, Alive, Expired;
      ghost var before := s;
      var kept: Table;
      expired, kept := Split(s.sessions, all, now);
      s := Go(s, p, Cleaning(expired)).(sessions := kept);
      Account(before, Event.Take(p, all, now));
    }

    /** A step without the mutex, or one that puts a session back. */
    method Move(e: Event)
      requires Valid() && Step(s, e).Some?
      modifies this
      ensures Valid() && Step(old(s), e) == Some(s)
    {
      hide OwnerInv, CapacityInv, Step;
      ghost var before := s;
      s := Step(s, e).value;
      Account(before, e);
    }

    // ------------------------------------------------------------------------- handlers

    /** A random token: 32 bytes never repeat. */
    method Draw(drawn: set<string>) returns (token: string)
      ensures token !in drawn
    {
      token := *;
      if token in drawn {
        token := "x";
        var left := drawn;
        while left != {}
          invariant left <= drawn && forall w <- drawn - left :: |w| < |token|
          invariant token != ""
          decreases left
        {
          var w :| w in left;
          token := token + w;
          left := left - {w};
        }
      }
    }

    /** `current`: renew the session of a cookie and open its islet. In between the others may
        do anything, and opening can fail. */
    method Current(p: Pid, token: string, now: int) returns (answer: Answer)
      requires Valid() && p !in s.procs
      modifies this
      ensures Valid() && p !in s.procs
      ensures answer in {Joined, OpenFailed} <==> token in old(s.sessions) && Alive(old(s.sessions)[token], now)
      ensures answer in {Joined, OpenFailed, Unauthorized}
    {
      hide OwnerInv, CapacityInv, Step;
      var item := Touch(token, now);
      Unmoved(old(s), s, p, token, now);
      if item.None? {
        return Unauthorized;
      }
      Others(p);
      var opens: bool := *;
      answer := if opens then Joined else OpenFailed;
    }

    /** `start`: if the cookie's session is live, go on with `current`, by which time it may have
        gone; otherwise reserve, create the islet and enter it in the table. A request that found
        a live session reserves nothing; any other has given its reservation back and holds
        nothing any more when it returns. The clock is read once in each critical section. */
    method Start(p: Pid, cookie: Option<string>, now: int, later: int, last: int) returns (answer: Answer)
      requires Valid() && p !in s.procs
      modifies this
      ensures Valid() && At(s, p) == Finished
      ensures var live := cookie.Some? && cookie.value in old(s.sessions) && Alive(old(s.sessions)[cookie.value], now);
              && (live ==> answer in {Joined, Unauthorized, OpenFailed} && p !in s.procs)
              && (!live ==> answer in {Full, Failed, Started} && p in s.procs)
    {
      hide OwnerInv, CapacityInv, Step;
      if cookie.Some? {
        var live := Test(cookie.value, now);
        Others(p);
        if live {
          answer := Current(p, cookie.value, later);
          return;
        }
      }
      var token := Draw(s.drawn);
      var ok := Reserve(p, token);
      if !ok {
        return Full;
      }
      Others(p);
      var created: bool := *;
      var id := Draw(s.drawn);
      if created {
        CanCreate(s, p, id);
        Move(CreateOk(p, id));
        Others(p);
        Insert(p, last);
      } else {
        CanFail(s, p);
        Move(CreateFails(p));
      }
      Others(p);
      Release(p);
      answer := if created then Started else Failed;
    }

    /** `end`: `current`, which renews the session; then remove the islet, then the session.
        From the renewal on the handler has the islet's identifier. */
    method End(p: Pid, token: string, now: int) returns (answer: Answer)
      requires Valid() && p !in s.procs
      modifies this
      ensures Valid() && At(s, p) == Finished
      ensures answer in {Unauthorized, OpenFailed, Failed, Deleted}
      ensures answer == Unauthorized <==> !(token in old(s.sessions) && Alive(old(s.sessions)[token], now))
      ensures answer == Unauthorized ==> s == old(s)
    {
      hide OwnerInv, CapacityInv, Step;
      if token !in s.sessions || !Alive(s.sessions[token], now) {
        return Unauthorized;
      }
      CanEnd(s, p, token, now);
      Move(Event.End(p, token, now));
      Others(p);
      var opens: bool := *;
      if !opens {
        // The session has been renewed, and its islet is still there.
        CanEndFail(s, p, false);
        Move(EndFails(p, false));
        return OpenFailed;
      }
      Others(p);
      var removed: bool := *;
      if !removed {
        var gone: bool := *;
        CanEndFail(s, p, gone);
        Move(EndFails(p, gone));
        return Failed;
      }
      CanEndRemove(s, p);
      Move(EndRemoves(p));
      Others(p);
      Forget(p);
      answer := Deleted;
    }

    /** `Cleanup`: take the expired sessions out, and put back those that cannot be removed. It
        ends up holding none of them. */
    method Cleanup(p: Pid, all: bool, now: int) returns (failures: nat)
      requires Valid() && p !in s.procs
      modifies this
      ensures Valid() && At(s, p) == Cleaning(map[])
      ensures failures <= |Expired(old(s.sessions), all, now)|
    {
      hide OwnerInv, CapacityInv, Step;
      var todo := Take(p, all, now);
      failures := 0;
      while todo != map[]
        invariant Valid() && At(s, p) == Cleaning(todo)
        invariant failures + |todo| <= |Expired(old(s.sessions), all, now)|
        decreases |todo|
      {
        Others(p);
        assert todo.Keys != {};
        var token :| token in todo;
        var removed: bool := *;
        var gone: bool := *;
        CanClean(s, p, token, gone);
        Smaller(todo, token);
        if removed {
          Move(CleanupRemoves(p, token));
        } else {
          Move(CleanupFails(p, token, gone));
          failures := failures + 1;
        }
        todo := todo - {token};
      }
    }
  }

  lemma ExpiredNext(sessions: Table, left: set<string>, token: string, all: bool, now: int)
    requires left <= sessions.Keys && token in left
    ensures token !in Expired(sessions - left, all, now)
    ensures Expired(sessions - (left - {token}), all, now)
         == if all || !Alive(sessions[token], now) then Expired(sessions - left, all, now)[token := sessions[token]]
            else Expired(sessions - left, all, now)
  {
    hide Alive;
    assert (sessions - (left - {token})).Keys == (sessions - left).Keys + {token};
  }

  // What a handler may do next.

  lemma Unmoved(s: State, s': State, p: Pid, token: string, now: int)
    requires Step(s, Touch(token, now)) == Some(s')
    ensures s'.procs == s.procs
  {
  }

  lemma CanCreate(s: State, p: Pid, id: string)
    requires At(s, p).Starting? && id !in s.drawn
    ensures Step(s, CreateOk(p, id)).Some? && At(Step(s, CreateOk(p, id)).value, p) == Created(At(s, p).token, id)
    ensures Step(s, CreateOk(p, id)).value.alive == s.alive + {id}
  {
  }

  lemma CanFail(s: State, p: Pid)
    requires At(s, p).Starting?
    ensures Step(s, CreateFails(p)).Some? && At(Step(s, CreateFails(p)).value, p) == Settled
  {
  }

  lemma HeldReservation(s: State, p: Pid)
    requires CapacityInv(s) && At(s, p) == Settled
    ensures s.pending > 0
  {
    assert p in Reserved(s);
  }

  lemma CanEnd(s: State, p: Pid, token: string, now: int)
    requires p !in s.procs && token in s.sessions && Alive(s.sessions[token], now)
    ensures Step(s, End(p, token, now)).Some?
    ensures At(Step(s, End(p, token, now)).value, p) == Ending(token, s.sessions[token].id)
  {
  }

  lemma CanEndFail(s: State, p: Pid, gone: bool)
    requires At(s, p).Ending?
    ensures Step(s, EndFails(p, gone)).Some? && At(Step(s, EndFails(p, gone)).value, p) == Finished
  {
  }

  lemma CanEndRemove(s: State, p: Pid)
    requires At(s, p).Ending?
    ensures Step(s, EndRemoves(p)).Some? && At(Step(s, EndRemoves(p)).value, p) == Ended(At(s, p).token)
  {
  }

  lemma CanClean(s: State, p: Pid, token: string, gone: bool)
    requires At(s, p).Cleaning? && token in At(s, p).todo
    ensures Step(s, CleanupRemoves(p, token)).Some? && Step(s, CleanupFails(p, token, gone)).Some?
    ensures At(Step(s, CleanupRemoves(p, token)).value, p) == Cleaning(At(s, p).todo - {token})
    ensures At(Step(s, CleanupFails(p, token, gone)).value, p) == Cleaning(At(s, p).todo - {token})
  {
  }

  lemma Smaller(todo: Table, token: string)
    requires token in todo
    ensures |todo - {token}| == |todo| - 1
  {
    assert (todo - {token}).Keys == todo.Keys - {token};
  }
}
