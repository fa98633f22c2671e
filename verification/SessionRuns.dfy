/**
 Any number of requests and cleanups on one session table. What happens under the mutex is
 one step; creating, opening and removing islets happens outside it, between steps.
 */
module SessionRuns {
  import opened Wrappers
  import opened Sessions

  type Pid = nat

  /** Where a handler has got to. */
  datatype Proc =
    | Starting(token: string)                 // reserved, the islet is being created
    | Created(token: string, id: string)      // created, not in the table yet
    | Settled                                 // the reservation is still to be given back
    | Ending(token: string, id: string)       // `end` is removing the islet
    | Ended(token: string)                    // removed, still in the table
    | Cleaning(todo: Table)                   // `Cleanup` holds these
    | Finished

  /** `alive` are the islets that were created successfully and have not been deleted. */
  datatype State = State(
    sessions: Table,
    pending: int,
    procs: map<Pid, Proc>,
    alive: set<string>,
    drawn: set<string>,     // tokens and identifiers drawn so far
    putBacks: nat)

  const INITIAL := State(map[], 0, map[], {}, {}, 0)

  datatype Event =
    | Reserve(p: Pid, token: string)
    | CreateOk(p: Pid, id: string)
    | CreateFails(p: Pid)
    | Insert(p: Pid, now: int)
    | Release(p: Pid)
    | Touch(token: string, now: int)
    | End(p: Pid, token: string, now: int)
    | EndRemoves(p: Pid)
    | EndFails(p: Pid, gone: bool)
    | Forget(p: Pid)
    | Take(p: Pid, all: bool, now: int)
    | CleanupRemoves(p: Pid, token: string)
    | CleanupFails(p: Pid, token: string, gone: bool)

  function At(s: State, p: Pid): Proc {
    if p in s.procs then s.procs[p] else Finished
  }

  function Go(s: State, p: Pid, proc: Proc): State {
    s.(procs := s.procs[p := proc])
  }

  /** One step; None if it cannot happen. A removal that reports an error may all the same
      have deleted the islet. */
  function Step(s: State, e: Event): Option<State> {
    match e
    case Reserve(p, token) =>
      if p in s.procs || token in s.drawn then None
      else if |s.sessions| + s.pending >= MAX_SESSIONS then Some(Go(s, p, Finished))
      else Some(Go(s, p, Starting(token)).(pending := s.pending + 1, drawn := s.drawn + {token}))
    case CreateOk(p, id) =>
      if !At(s, p).Starting? || id in s.drawn then None
      else Some(Go(s, p, Created(At(s, p).token, id)).(alive := s.alive + {id}, drawn := s.drawn + {id}))
    case CreateFails(p) => if !At(s, p).Starting? then None else Some(Go(s, p, Settled))
    case Insert(p, now) =>
      if !At(s, p).Created? then None
      else Some(Go(s, p, Settled).(sessions := s.sessions[At(s, p).token := Session(At(s, p).id, now)]))
    case Release(p) => if !At(s, p).Settled? then None else Some(Go(s, p, Finished).(pending := s.pending - 1))
    case Touch(token, now) =>
      if token !in s.sessions || !Alive(s.sessions[token], now) then Some(s)
      else Some(s.(sessions := s.sessions[token := s.sessions[token].(used := now)]))
    case End(p, token, now) =>
      if p in s.procs || token !in s.sessions || !Alive(s.sessions[token], now) then None
      else
        var item := s.sessions[token].(used := now);
        Some(Go(s, p, Ending(token, item.id)).(sessions := s.sessions[token := item]))
    case EndRemoves(p) =>
      if !At(s, p).Ending? then None else Some(Go(s, p, Ended(At(s, p).token)).(alive := s.alive - {At(s, p).id}))
    case EndFails(p, gone) =>
      if !At(s, p).Ending? then None
      else Some(Go(s, p, Finished).(alive := if gone then s.alive - {At(s, p).id} else s.alive))
    case Forget(p) =>
      if !At(s, p).Ended? then None else Some(Go(s, p, Finished).(sessions := s.sessions - {At(s, p).token}))
    case Take(p, all, now) =>
      if p in s.procs then None
      else
        var expired := Expired(s.sessions, all, now);
        Some(Go(s, p, Cleaning(expired)).(sessions := s.sessions - expired.Keys))
    case CleanupRemoves(p, token) =>
      if !At(s, p).Cleaning? || token !in At(s, p).todo then None
      else
        var todo := At(s, p).todo;
        Some(Go(s, p, Cleaning(todo - {token})).(alive := s.alive - {todo[token].id}))
    case CleanupFails(p, token, gone) =>
      if !At(s, p).Cleaning? || token !in At(s, p).todo then None
      else
        var todo := At(s, p).todo;
        Some(Go(s, p, Cleaning(todo - {token})).(
          sessions := s.sessions[token := todo[token]],
          alive := if gone then s.alive - {todo[token].id} else s.alive,
          putBacks := s.putBacks + 1))
  }

  function Steps(s: State, es: seq<Event>): Option<State>
    decreases |es|
  {
    if es == [] then Some(s)
    else match Step(s, es[0])
         case None => None
         case Some(s1) => Steps(s1, es[1..])
  }

  // -------------------------------------------------------------------------- ownership

  /** Somebody still answers for an islet under this token: the table, the start that created
      it, or a cleanup that has taken it out. */
  predicate HeldBy(s: State, p: Pid, token: string, id: string) {
    match At(s, p)
    case Created(t, i) => t == token && i == id
    case Cleaning(todo) => token in todo && todo[token].id == id
    case _ => false
  }

  ghost predicate Held(s: State, token: string, id: string) {
    || (token in s.sessions && s.sessions[token].id == id)
    || exists p :: p in s.procs && HeldBy(s, p, token, id)
  }

  ghost predicate Owned(s: State, id: string) {
    exists token :: Held(s, token, id)
  }

  /** A token stands for one islet wherever it occurs. */
  ghost predicate Binds(s: State, owner: map<string, string>) {
    && (forall t <- s.sessions :: t in owner && owner[t] == s.sessions[t].id)
    && (forall p <- s.procs :: ProcBinds(s, owner, s.procs[p]))
    && (forall t <- owner :: t in s.drawn && owner[t] in s.drawn)
  }

  predicate ProcBinds(s: State, owner: map<string, string>, proc: Proc) {
    match proc
    case Starting(t) => t in s.drawn && t !in owner
    case Created(t, id) => t in owner && owner[t] == id
    case Ending(t, id) => t in owner && owner[t] == id
    case Ended(t) => t in owner && owner[t] !in s.alive
    case Cleaning(todo) => forall t <- todo :: t in owner && owner[t] == todo[t].id
    case _ => true
  }

  /** Two starts never work under one token. */
  ghost predicate TokensDiffer(s: State) {
    forall p, q | p in s.procs && q in s.procs && p != q && s.procs[p].Starting? && s.procs[q].Starting? ::
      s.procs[p].token != s.procs[q].token
  }

  ghost predicate OwnerInv(s: State, owner: map<string, string>) {
    && Binds(s, owner) && TokensDiffer(s)
    && s.alive <= s.drawn
    && (forall id <- s.alive :: exists t :: t in owner && owner[t] == id && Held(s, t, id))
  }

  /** The binding after a step: a successful creation binds its token. */
  function Bind(s: State, e: Event, owner: map<string, string>): map<string, string> {
    if e.CreateOk? && At(s, e.p).Starting? then owner[At(s, e.p).token := e.id] else owner
  }

  predicate OfCleanup(e: Event) {
    e.Take? || e.CleanupRemoves? || e.CleanupFails?
  }

  lemma RequestBinds(s: State, e: Event, owner: map<string, string>)
    requires OwnerInv(s, owner) && Step(s, e).Some? && !OfCleanup(e)
    ensures Binds(Step(s, e).value, Bind(s, e, owner)) && Step(s, e).value.alive <= Step(s, e).value.drawn
  {
    var s', owner' := Step(s, e).value, Bind(s, e, owner);
    if e.CreateOk? || e.Insert? {
      assert ProcBinds(s, owner, At(s, e.p));
    }
    forall p <- s'.procs ensures ProcBinds(s', owner', s'.procs[p]) {
      assert p in s.procs ==> ProcBinds(s, owner, s.procs[p]);
    }
  }

  lemma CleanupBinds(s: State, e: Event, owner: map<string, string>)
    requires OwnerInv(s, owner) && Step(s, e).Some? && OfCleanup(e)
    ensures Binds(Step(s, e).value, owner) && Step(s, e).value.alive <= Step(s, e).value.drawn
  {
    var s' := Step(s, e).value;
    assert ProcBinds(s, owner, At(s, e.p));
    forall p <- s'.procs ensures ProcBinds(s', owner, s'.procs[p]) {
      assert p in s.procs ==> ProcBinds(s, owner, s.procs[p]);
    }
  }

  lemma DifferStep(s: State, e: Event, owner: map<string, string>)
    requires OwnerInv(s, owner) && Step(s, e).Some?
    ensures TokensDiffer(Step(s, e).value)
  {
    var s' := Step(s, e).value;
    forall p <- s.procs ensures s.procs[p].Starting? ==> s.procs[p].token in s.drawn {
      assert ProcBinds(s, owner, s.procs[p]);
    }
  }

  /** An entry of the table stays one for as long as its islet is alive. */
  lemma EntryHeld(s: State, e: Event, owner: map<string, string>, t: string)
    requires Binds(s, owner) && Step(s, e).Some? && !OfCleanup(e)
    requires t in s.sessions && s.sessions[t].id in Step(s, e).value.alive && s.sessions[t].id in s.alive
    ensures var s' := Step(s, e).value; t in s'.sessions && s'.sessions[t].id == s.sessions[t].id
  {
    if e.Forget? || e.Insert? {
      assert ProcBinds(s, owner, At(s, e.p));
    }
  }

  /** Who holds an islet goes on holding it, or hands it over to the table. */
  lemma HandlerHeld(s: State, e: Event, p: Pid, t: string, id: string)
    requires Step(s, e).Some? && !OfCleanup(e) && p in s.procs && HeldBy(s, p, t, id)
    ensures Held(Step(s, e).value, t, id)
  {
    var s' := Step(s, e).value;
    if e.Insert? && e.p == p {
      assert t in s'.sessions && s'.sessions[t].id == id;
    } else {
      assert p in s'.procs && At(s', p) == At(s, p);
      assert HeldBy(s', p, t, id);
    }
  }

  lemma RequestHeld(s: State, e: Event, owner: map<string, string>, t: string, id: string)
    requires OwnerInv(s, owner) && Step(s, e).Some? && !OfCleanup(e)
    requires Held(s, t, id) && t in owner && owner[t] == id && id in Step(s, e).value.alive && id in s.alive
    ensures Held(Step(s, e).value, t, id)
  {
    hide Step;
    if t in s.sessions && s.sessions[t].id == id {
      EntryHeld(s, e, owner, t);
    } else {
      var p :| p in s.procs && HeldBy(s, p, t, id);
      HandlerHeld(s, e, p, t, id);
    }
  }

  lemma CleanupHeld(s: State, e: Event, owner: map<string, string>, t: string, id: string)
    requires OwnerInv(s, owner) && Step(s, e).Some? && OfCleanup(e)
    requires Held(s, t, id) && t in owner && owner[t] == id && id in Step(s, e).value.alive
    ensures Held(Step(s, e).value, t, id)
  {
    var s' := Step(s, e).value;
    assert ProcBinds(s, owner, At(s, e.p));
    if t in s.sessions && s.sessions[t].id == id {
      if e.Take? && t !in s'.sessions {
        assert e.p in s'.procs && HeldBy(s', e.p, t, id);
      }
    } else {
      var p :| p in s.procs && HeldBy(s, p, t, id);
      if !(e.CleanupFails? && e.p == p && e.token == t) {
        assert p in s'.procs && HeldBy(s', p, t, id);
      }
    }
  }

  lemma OwnerStep(s: State, e: Event, owner: map<string, string>)
    requires OwnerInv(s, owner) && Step(s, e).Some?
    ensures OwnerInv(Step(s, e).value, Bind(s, e, owner))
  {
    var s', owner' := Step(s, e).value, Bind(s, e, owner);
    DifferStep(s, e, owner);
    if OfCleanup(e) {
      CleanupBinds(s, e, owner);
    } else {
      RequestBinds(s, e, owner);
    }
    forall id <- s'.alive ensures exists t :: t in owner' && owner'[t] == id && Held(s', t, id) {
      if id in s.alive {
        var t :| t in owner && owner[t] == id && Held(s, t, id);
        BoundOnce(s, e, owner, t);
        if OfCleanup(e) {
          CleanupHeld(s, e, owner, t, id);
        } else {
          RequestHeld(s, e, owner, t, id);
        }
      } else {
        NewIslet(s, e, id);
      }
    }
  }

  lemma BoundOnce(s: State, e: Event, owner: map<string, string>, t: string)
    requires OwnerInv(s, owner) && Step(s, e).Some? && t in owner
    ensures t in Bind(s, e, owner) && Bind(s, e, owner)[t] == owner[t]
  {
    if e.CreateOk? {
      assert ProcBinds(s, owner, At(s, e.p));
    }
  }

  lemma NewIslet(s: State, e: Event, id: string)
    requires Step(s, e).Some? && id !in s.alive && id in Step(s, e).value.alive
    ensures e.CreateOk? && e.id == id && At(s, e.p).Starting?
    ensures Held(Step(s, e).value, At(s, e.p).token, id)
  {
    assert e.p in Step(s, e).value.procs && HeldBy(Step(s, e).value, e.p, At(s, e.p).token, id);
  }

  lemma {:induction false} OwnerRun(s: State, es: seq<Event>, owner: map<string, string>)
    returns (owner': map<string, string>)
    requires OwnerInv(s, owner) && Steps(s, es).Some?
    ensures OwnerInv(Steps(s, es).value, owner')
    decreases |es|
  {
    owner' := owner;
    if es != [] {
      OwnerStep(s, es[0], owner);
      hide OwnerInv, Step;
      owner' := OwnerRun(Step(s, es[0]).value, es[1..], Bind(s, es[0], owner));
    }
  }

  /** In every run, an islet that was created successfully and has not been deleted is owned:
      by the table, by the start that created it, or by a cleanup. None is ever lost. */
  lemma NoIsletIsLost(es: seq<Event>)
    requires Steps(INITIAL, es).Some?
    ensures var s := Steps(INITIAL, es).value; forall id <- s.alive :: Owned(s, id)
  {
    var owner := OwnerRun(INITIAL, es, map[]);
  }

  // --------------------------------------------------------------------------- capacity

  predicate Waits(proc: Proc) {
    proc.Starting? || proc.Created?
  }

  function Waiting(s: State): set<Pid> {
    set p | p in s.procs && Waits(s.procs[p])
  }

  /** The starts that have a reservation. */
  function Reserved(s: State): set<Pid> {
    set p | p in s.procs && (Waits(s.procs[p]) || s.procs[p].Settled?)
  }

  ghost predicate CapacityInv(s: State) {
    && s.pending == |Reserved(s)|
    && |s.sessions| + |Waiting(s)| <= MAX_SESSIONS + s.putBacks
  }

  function WaitingOf(proc: Proc): nat {
    if Waits(proc) then 1 else 0
  }

  function ReservedOf(proc: Proc): nat {
    if Waits(proc) || proc.Settled? then 1 else 0
  }

  lemma OneMember(a: set<Pid>, a': set<Pid>, p: Pid)
    requires a' - {p} == a - {p}
    ensures |a'| == |a| + (if p in a' then 1 else 0) - (if p in a then 1 else 0)
  {
    assert p in a ==> a == (a - {p}) + {p};
    assert p !in a ==> a == a - {p};
    assert p in a' ==> a' == (a - {p}) + {p};
    assert p !in a' ==> a' == a - {p};
  }

  /** What one handler's move does to the two counts. */
  lemma Counts(s: State, s': State, p: Pid)
    requires s'.procs == s.procs[p := At(s', p)]
    ensures |Waiting(s')| == |Waiting(s)| + WaitingOf(At(s', p)) - WaitingOf(At(s, p))
    ensures |Reserved(s')| == |Reserved(s)| + ReservedOf(At(s', p)) - ReservedOf(At(s, p))
  {
    assert Waiting(s') - {p} == Waiting(s) - {p};
    assert Reserved(s') - {p} == Reserved(s) - {p};
    OneMember(Waiting(s), Waiting(s'), p);
    OneMember(Reserved(s), Reserved(s'), p);
  }

  lemma {:induction false} Subset<T>(a: set<T>, b: set<T>)
    requires a <= b
    ensures |a| <= |b|
  {
    assert b == a + (b - a);
  }

  /** The table grows by at most the entry that is put. */
  lemma PutSize(m: Table, token: string, item: Session)
    ensures |m[token := item]| == |m| + if token in m then 0 else 1
  {
    assert m[token := item].Keys == m.Keys + {token};
  }

  lemma TakeSize(m: Table, gone: set<string>)
    ensures |m - gone| <= |m|
  {
    Subset((m - gone).Keys, m.Keys);
  }

  /** A move that keeps the account: the reservations are counted, and the table grows only by
      a start that stops waiting or by a session put back. */
  lemma Balanced(s: State, s': State, p: Pid)
    requires CapacityInv(s) && s'.procs == s.procs[p := At(s', p)]
    requires s'.pending == s.pending + ReservedOf(At(s', p)) - ReservedOf(At(s, p))
    requires || |s'.sessions| + WaitingOf(At(s', p)) <= |s.sessions| + WaitingOf(At(s, p)) + s'.putBacks - s.putBacks
             || (s'.sessions == s.sessions && s'.putBacks == s.putBacks && |s.sessions| + s.pending < MAX_SESSIONS)
    ensures CapacityInv(s')
  {
    Subset(Waiting(s), Reserved(s));
    hide Waiting, Reserved;
    Counts(s, s', p);
  }

  lemma RequestCapacity(s: State, e: Event)
    requires CapacityInv(s) && Step(s, e).Some? && !OfCleanup(e) && !e.Touch?
    ensures CapacityInv(Step(s, e).value)
  {
    hide CapacityInv, Alive;
    var s' := Step(s, e).value;
    if e.Insert? {
      PutSize(s.sessions, At(s, e.p).token, Session(At(s, e.p).id, e.now));
    } else if e.End? {
      PutSize(s.sessions, e.token, s.sessions[e.token].(used := e.now));
    } else if e.Forget? {
      TakeSize(s.sessions, {At(s, e.p).token});
    }
    Balanced(s, s', e.p);
  }

  lemma CleanupCapacity(s: State, e: Event)
    requires CapacityInv(s) && Step(s, e).Some? && OfCleanup(e)
    ensures CapacityInv(Step(s, e).value)
  {
    hide CapacityInv, Alive;
    if e.Take? {
      TakeSize(s.sessions, Expired(s.sessions, e.all, e.now).Keys);
    } else {
      PutSize(s.sessions, e.token, At(s, e.p).todo[e.token]);
    }
    Balanced(s, Step(s, e).value, e.p);
  }

  lemma CapacityStep(s: State, e: Event)
    requires CapacityInv(s) && Step(s, e).Some?
    ensures CapacityInv(Step(s, e).value)
  {
    if e.Touch? {
      if e.token in s.sessions {
        PutSize(s.sessions, e.token, s.sessions[e.token].(used := e.now));
      }
      assert Waiting(Step(s, e).value) == Waiting(s) && Reserved(Step(s, e).value) == Reserved(s);
    } else if OfCleanup(e) {
      hide Step;
      CleanupCapacity(s, e);
    } else {
      hide Step;
      RequestCapacity(s, e);
    }
  }

  lemma {:induction false} CapacityRun(s: State, es: seq<Event>)
    requires CapacityInv(s) && Steps(s, es).Some?
    ensures CapacityInv(Steps(s, es).value)
    decreases |es|
  {
    if es != [] {
      CapacityStep(s, es[0]);
      hide CapacityInv, Step;
      CapacityRun(Step(s, es[0]).value, es[1..]);
    }
  }

  /** The table never holds more than 32 sessions, plus one for every session that a failed
      cleanup has put back; and `pending` counts the open reservations exactly. */
  lemma CapacityHolds(es: seq<Event>)
    requires Steps(INITIAL, es).Some?
    ensures var s := Steps(INITIAL, es).value;
            && |s.sessions| <= 32 + s.putBacks
            && s.pending == |Reserved(s)|
  {
    CapacityRun(INITIAL, es);
  }

  /** What a cleanup takes and what it leaves: a session stays under its token exactly if not all
      are to go and it was used within the last half hour; it is put into the handler's hands
      otherwise. */
  lemma CleanupTakesExactly(s: State, p: Pid, all: bool, now: int, token: string, item: Session)
    requires p !in s.procs
    ensures Step(s, Take(p, all, now)).Some?
    ensures var s' := Step(s, Take(p, all, now)).value;
            && At(s', p).Cleaning?
            && (token in s.sessions && s.sessions[token] == item && !all && now - item.used < 1800 <==>
                token in s'.sessions && s'.sessions[token] == item)
            && (token in s.sessions && s.sessions[token] == item && (all || now - item.used >= 1800) <==>
                token in At(s', p).todo && At(s', p).todo[token] == item)
  {
    assert Step(s, Take(p, all, now)).Some?;
  }
}
