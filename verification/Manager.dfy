/**
 The worker manager (internal/workers/manager.go): one worker per session, created once
 however many callers ask at the same time, replaced when it errors, reaped when idle.

 `Tables` is what the mutex protects and the functions on it are the critical sections; the
 class performs them, the protocol below interleaves them.
 */
module Manager {
  import opened Prelude

  type Session = string

  datatype Status = Idle | Running | Erring

  datatype Tables<W, C> = Tables(workers: map<Session, W>, creating: map<Session, C>, pendingSends: map<Session, nat>)

  /** What the first critical section of workerFor decides. */
  datatype Found<W, C> = Use(worker: W) | Evict(worker: W) | Join(call: C) | Build

  function Look<W, C>(tb: Tables<W, C>, s: Session, erring: bool): Found<W, C>
  {
    if s in tb.workers then if erring then Evict(tb.workers[s]) else Use(tb.workers[s])
    else if s in tb.creating then Join(tb.creating[s])
    else Build
  }

  function AfterLook<W, C>(tb: Tables<W, C>, s: Session, erring: bool, call: C): Tables<W, C>
  {
    match Look(tb, s, erring)
    case Use(_) => tb
    case Evict(_) => tb.(workers := tb.workers - {s})
    case Join(_) => tb
    case Build => tb.(creating := tb.creating[s := call])
  }

  /** The second critical section, `existingOk` telling whether a registered worker is healthy. */
  function AfterBuild<W, C>(tb: Tables<W, C>, s: Session, built: Option<W>, existingOk: bool): Tables<W, C>
  {
    tb.(creating := tb.creating - {s},
        workers := if built.None? || (s in tb.workers && existingOk) then tb.workers else tb.workers[s := built.value])
  }

  function AfterReap<W, C>(tb: Tables<W, C>, victims: set<Session>): Tables<W, C>
  {
    tb.(workers := tb.workers - victims)
  }

  function PendingSends<W, C>(tb: Tables<W, C>, s: Session): nat
  {
    if s in tb.pendingSends then tb.pendingSends[s] else 0
  }

  function AfterBegin<W, C>(tb: Tables<W, C>, s: Session): Tables<W, C>
  {
    tb.(pendingSends := tb.pendingSends[s := PendingSends(tb, s) + 1])
  }

  function AfterEnd<W, C>(tb: Tables<W, C>, s: Session): Tables<W, C>
  {
    tb.(pendingSends :=
          if PendingSends(tb, s) <= 1 then tb.pendingSends - {s} else tb.pendingSends[s := PendingSends(tb, s) - 1])
  }

  function Reported<W, C>(tb: Tables<W, C>, s: Session, worker: Status): Status
  {
    var status := if s in tb.workers then worker else Idle;
    if PendingSends(tb, s) > 0 && status == Idle then Running else status
  }

  // --- The manager ---------------------------------------------------------------

  class ChatWorker {
    var status: Status
    var closes: nat

    constructor (status: Status)
      ensures this.status == status && closes == 0
    {
      this.status, closes := status, 0;
    }

    method Close()
      modifies this
      ensures closes == old(closes) + 1 && status == old(status)
    {
      closes := closes + 1;
    }
  }

  class CreateCall {
    var done: bool
    var worker: ChatWorker?

    constructor ()
      ensures !done && worker == null
    {
      done, worker := false, null;
    }

    method Finish(w: ChatWorker?)
      requires !done
      modifies this
      ensures done && worker == w
    {
      done, worker := true, w;
    }
  }

  class WorkerManager {
    var workers: map<Session, ChatWorker>
    var creating: map<Session, CreateCall>
    var pendingSends: map<Session, nat>

    function Value(): Tables<ChatWorker, CreateCall>
      reads this
    {
      Tables(workers, creating, pendingSends)
    }

    constructor ()
      ensures Value() == Tables(map[], map[], map[])
    {
      workers, creating, pendingSends := map[], map[], map[];
    }

    function Errs(s: Session): bool
      reads this, workers.Values
    {
      s in workers && workers[s].status == Erring
    }

    /** workerFor up to the first unlock; `call` is the fresh createCall when the caller must build. */
    method LookUp(s: Session) returns (found: Found<ChatWorker, CreateCall>, call: CreateCall?)
      modifies this`workers, this`creating
      ensures found == old(Look(Value(), s, Errs(s)))
      ensures found.Build? <==> call != null
      ensures call != null ==> fresh(call) && !call.done && Value() == AfterLook(old(Value()), s, old(Errs(s)), call)
      ensures call == null ==>
                Value() == if found.Evict? then old(Value()).(workers := old(workers) - {s}) else old(Value())
    {
      call := null;
      if s in workers {
        if workers[s].status != Erring {
          return Use(workers[s]), null;
        }
        found := Evict(workers[s]);
        workers := workers - {s};
      } else if s in creating {
        found := Join(creating[s]);
      } else {
        call := new CreateCall();
        creating := creating[s := call];
        found := Build;
      }
    }

    /** workerFor after the factory returned `built` (null for an error). */
    method Publish(s: Session, call: CreateCall, built: ChatWorker?) returns (worker: ChatWorker?)
      requires !call.done && (built != null ==> built !in workers.Values)
      modifies this`workers, this`creating, call, built
      ensures Value() == AfterBuild(old(Value()), s, if built == null then None else Some(built), old(s in workers && !Errs(s)))
      ensures call.done && call.worker == worker
      ensures worker == if built != null && old(s in workers && !Errs(s)) then old(workers)[s] else built
      ensures built != null ==> built.closes == old(built.closes) + if worker == built then 0 else 1
    {
      worker := built;
      if built != null {
        if s in workers && workers[s].status != Erring {
          built.Close();
          worker := workers[s];
        } else {
          workers := workers[s := built];
        }
      }
      creating := creating - {s};
      call.Finish(worker);
    }

    /** Takes the idle workers among `overdue` out of the table; the caller closes them. */
    method ReapSweep(overdue: set<Session>) returns (dead: set<ChatWorker>)
      modifies this`workers
      ensures var victims := set s | s in overdue && s in old(workers) && old(workers)[s].status == Idle;
              && Value() == AfterReap(old(Value()), victims)
              && dead == set s | s in victims :: old(workers)[s]
    {
      var victims := set s | s in overdue && s in workers && workers[s].status == Idle;
      dead := set s | s in victims :: workers[s];
      workers := workers - victims;
    }

    method BeginSend(s: Session)
      modifies this`pendingSends
      ensures Value() == old(AfterBegin(Value(), s))
    {
      pendingSends := pendingSends[s := if s in pendingSends then pendingSends[s] + 1 else 1];
    }

    method EndSend(s: Session)
      modifies this`pendingSends
      ensures Value() == old(AfterEnd(Value(), s))
    {
      var n: int := if s in pendingSends then pendingSends[s] as int - 1 else -1;
      if n <= 0 {
        pendingSends := pendingSends - {s};
      } else {
        pendingSends := pendingSends[s := n];
      }
    }

    method Status(s: Session) returns (status: Status)
      ensures var pending := s in pendingSends && pendingSends[s] > 0;
              && (status == Idle <==> !pending && (s in workers ==> workers[s].status == Idle))
              && (s in workers && (!pending || workers[s].status != Idle) ==> status == workers[s].status)
              && (pending && (s in workers ==> workers[s].status == Idle) ==> status == Running)
      ensures status == Reported(Value(), s, if s in workers then workers[s].status else Idle)
    {
      var pending := s in pendingSends && pendingSends[s] > 0;
      if s !in workers {
        return if pending then Running else Idle;
      }
      status := workers[s].status;
      if pending && status == Idle {
        status := Running;
      }
    }
  }

  // --- Interleavings -------------------------------------------------------------

  type Worker = nat
  type Call = nat
  type Thread = nat

  /** A worker ever built: its status, whether its last user action is longer ago than the idle TTL,
      and how many closers have closed it. */
  datatype WorkerState = WorkerState(status: Status, overdue: bool, closes: nat)

  /** A createCall: its session and, once done, the worker handed to everyone who joined it. */
  datatype CallState = InFlight(session: Session) | Done(session: Session, worker: Option<Worker>)

  /** Where a goroutine is. `todo` lists the workers it has taken out and still has to close. */
  datatype Pc =
    | Outside
    | Looking(session: Session)
    | Evicting(session: Session, worker: Worker)
    | Waiting(session: Session, call: Call)
    | Building(session: Session, call: Call)
    | Returned(session: Session, worker: Worker, via: Option<Call>)
    | Refused(session: Session)
    | Closing(todo: seq<Worker>)

  datatype State = State(
    tb: Tables<Worker, Call>,
    workers: seq<WorkerState>,
    calls: seq<CallState>,
    threads: map<Thread, Pc>,
    sending: map<Thread, Session>)

  datatype Step =
    | Enter(t: Thread, session: Session, send: bool)
    | LookStep(t: Thread)
    | CloseOne(t: Thread)
    | Wake(t: Thread)
    | Publish(t: Thread, ok: bool)
    | Leave(t: Thread)
    | Sweep(t: Thread, victims: seq<Session>)
    | CloseAll(t: Thread, victims: seq<Session>)
    | WorkerChange(w: Worker, status: Status, overdue: bool)

  datatype Trace = Start | Then(before: Trace, step: Step)

  function PcOf(st: State, t: Thread): Pc { if t in st.threads then st.threads[t] else Outside }

  function Todo(pc: Pc): seq<Worker> { if pc.Closing? then pc.todo else if pc.Evicting? then [pc.worker] else [] }

  function Moved(st: State, t: Thread, pc: Pc): State { st.(threads := st.threads[t := pc]) }

  predicate ErringWorker(st: State, w: Worker) { w < |st.workers| && st.workers[w].status == Erring }

  function AfterLookStep(st: State, t: Thread, s: Session): State
  {
    var erring := s in st.tb.workers && ErringWorker(st, st.tb.workers[s]);
    var call := |st.calls|;
    var next := st.(tb := AfterLook(st.tb, s, erring, call));
    match Look(st.tb, s, erring)
    case Use(w) => Moved(next, t, Returned(s, w, None))
    case Evict(w) => Moved(next, t, Evicting(s, w))
    case Join(c) => Moved(next, t, Waiting(s, c))
    case Build => Moved(next.(calls := st.calls + [InFlight(s)]), t, Building(s, call))
  }

  /** The factory returned: with a new worker if `ok`. A healthy registered worker wins over it. */
  function AfterPublish(st: State, t: Thread, s: Session, c: Call, ok: bool): State
    requires c < |st.calls|
  {
    var existing := s in st.tb.workers && !ErringWorker(st, st.tb.workers[s]);
    var built := |st.workers|;
    var result := if !ok then None else if existing then Some(st.tb.workers[s]) else Some(built);
    var next := st.(
      tb := AfterBuild(st.tb, s, if ok then Some(built) else None, existing),
      workers := if ok then st.workers + [WorkerState(Idle, false, if existing then 1 else 0)] else st.workers,
      calls := st.calls[c := Done(s, result)]);
    Moved(next, t, if result.Some? then Returned(s, result.value, Some(c)) else Refused(s))
  }

  /** Different registered sessions. */
  ghost predicate CanTake(st: State, victims: seq<Session>)
  {
    && victims != []
    && (forall i :: 0 <= i < |victims| ==> victims[i] in st.tb.workers)
    && (forall i, j :: 0 <= i < j < |victims| ==> victims[i] != victims[j])
  }

  predicate IdleTooLong(st: State, w: Worker)
  {
    w < |st.workers| && st.workers[w].status == Idle && st.workers[w].overdue
  }

  /** The idle sweep takes only workers that are idle and have been for longer than the TTL. */
  ghost predicate CanSweep(st: State, victims: seq<Session>)
  {
    CanTake(st, victims) && forall i :: 0 <= i < |victims| ==> IdleTooLong(st, st.tb.workers[victims[i]])
  }

  /** Close takes every worker. */
  ghost predicate CanCloseAll(st: State, victims: seq<Session>)
  {
    CanTake(st, victims) && forall s :: s in st.tb.workers ==> s in victims
  }

  /** The victims leave the table; the goroutine that took them goes on to close them. */
  function AfterTaking(st: State, t: Thread, victims: seq<Session>): State
    requires forall i :: 0 <= i < |victims| ==> victims[i] in st.tb.workers
  {
    var dead := seq(|victims|, i requires 0 <= i < |victims| => st.tb.workers[victims[i]]);
    Moved(st.(tb := AfterReap(st.tb, set s | s in victims)), t, Closing(dead))
  }

  /** Steps that are not possible leave the state unchanged. */
  ghost function After(st: State, e: Step): State
  {
    match e
    case Enter(t, s, send) =>
      if !PcOf(st, t).Outside? || t in st.sending then st
      else
        var next := Moved(st, t, Looking(s));
        if send then next.(tb := AfterBegin(st.tb, s), sending := st.sending[t := s]) else next
    case LookStep(t) => if PcOf(st, t).Looking? then AfterLookStep(st, t, PcOf(st, t).session) else st
    case CloseOne(t) =>
      var pc := PcOf(st, t);
      if Todo(pc) == [] || Todo(pc)[0] >= |st.workers| then st
      else
        var w := Todo(pc)[0];
        var next := st.(workers := st.workers[w := st.workers[w].(closes := st.workers[w].closes + 1)]);
        Moved(next, t, if pc.Evicting? then Looking(pc.session) else if |pc.todo| == 1 then Outside else Closing(pc.todo[1..]))
    case Wake(t) =>
      var pc := PcOf(st, t);
      if !pc.Waiting? || pc.call >= |st.calls| || st.calls[pc.call].InFlight? then st
      else
        var w := st.calls[pc.call].worker;
        Moved(st, t, if w.Some? then Returned(pc.session, w.value, Some(pc.call)) else Refused(pc.session))
    case Publish(t, ok) =>
      var pc := PcOf(st, t);
      if pc.Building? && pc.call < |st.calls| then AfterPublish(st, t, pc.session, pc.call, ok) else st
    case Leave(t) =>
      if !PcOf(st, t).Returned? && !PcOf(st, t).Refused? then st
      else
        var next := Moved(st, t, Outside);
        if t in st.sending then next.(tb := AfterEnd(st.tb, st.sending[t]), sending := st.sending - {t}) else next
    case Sweep(t, victims) =>
      if PcOf(st, t).Outside? && CanSweep(st, victims) then AfterTaking(st, t, victims) else st
    case CloseAll(t, victims) =>
      if PcOf(st, t).Outside? && CanCloseAll(st, victims) then AfterTaking(st, t, victims) else st
    case WorkerChange(w, status, overdue) =>
      if w < |st.workers| then st.(workers := st.workers[w := st.workers[w].(status := status, overdue := overdue)]) else st
  }

  ghost function Run(tr: Trace): State
  {
    match tr
    case Start => State(Tables(map[], map[], map[]), [], [], map[], map[])
    case Then(before, e) => After(Run(before), e)
  }

  // --- Who owns a worker, who builds ------------------------------------------------

  datatype Owner = Registered(session: Session) | OwedBy(thread: Thread) | Closed

  /** Bookkeeping for a run: the one owner of each worker, and the one builder of each session. */
  datatype Ledger = Ledger(owners: seq<Owner>, builders: map<Session, Thread>)

  ghost predicate Distinct(ws: seq<Worker>) { forall i, j :: 0 <= i < j < |ws| ==> ws[i] != ws[j] }

  /** A registered worker belongs to its session, a worker taken out to the goroutine that will
      close it; each is registered, still to be closed, or closed once, never two of these. */
  ghost predicate OwnedOnce(st: State, owners: seq<Owner>)
  {
    && |owners| == |st.workers|
    && (forall s :: s in st.tb.workers ==> st.tb.workers[s] < |owners| && owners[st.tb.workers[s]] == Registered(s))
    && (forall t, i :: 0 <= i < |Todo(PcOf(st, t))| ==>
          Todo(PcOf(st, t))[i] < |owners| && owners[Todo(PcOf(st, t))[i]] == OwedBy(t))
    && (forall t :: Distinct(Todo(PcOf(st, t))))
    && (forall w :: 0 <= w < |owners| ==> OwnerOk(st, w, owners[w]))
  }

  ghost predicate OwnerOk(st: State, w: Worker, owner: Owner)
    requires w < |st.workers|
  {
    && st.workers[w].closes == (if owner.Closed? then 1 else 0)
    && (owner.Registered? ==> owner.session in st.tb.workers && st.tb.workers[owner.session] == w)
    && (owner.OwedBy? ==> w in Todo(PcOf(st, owner.thread)))
  }

  /** A session being built has one builder and no worker; everyone who joined a call still in
      flight waits for that builder, and everyone it has served got the same worker. */
  ghost predicate BuiltOnce(st: State, builders: map<Session, Thread>)
  {
    && (forall s :: s in st.tb.creating ==> s !in st.tb.workers && s in builders)
    && (forall s :: s in builders ==>
          && s in st.tb.creating
          && st.tb.creating[s] < |st.calls|
          && st.calls[st.tb.creating[s]] == InFlight(s)
          && PcOf(st, builders[s]) == Building(s, st.tb.creating[s]))
    && (forall t :: PcOf(st, t).Building? ==> PcOf(st, t).session in builders && builders[PcOf(st, t).session] == t)
    && (forall t :: JoinOk(st, PcOf(st, t)))
  }

  ghost predicate JoinOk(st: State, pc: Pc)
  {
    && (pc.Waiting? ==>
          && pc.call < |st.calls|
          && st.calls[pc.call].session == pc.session
          && (st.calls[pc.call].InFlight? ==> pc.session in st.tb.creating && st.tb.creating[pc.session] == pc.call))
    && (pc.Returned? && pc.via.Some? ==>
          pc.via.value < |st.calls| && st.calls[pc.via.value] == Done(pc.session, Some(pc.worker)))
  }

  ghost predicate Sound(st: State, l: Ledger) { OwnedOnce(st, l.owners) && BuiltOnce(st, l.builders) }

  /** A goroutine changing place with nothing to close before or after disturbs no ownership. */
  lemma MovePreservesOwnership(st: State, st': State, owners: seq<Owner>, t: Thread)
    requires OwnedOnce(st, owners)
    requires st'.tb.workers == st.tb.workers && |st'.workers| == |st.workers|
    requires forall w :: 0 <= w < |st.workers| ==> st'.workers[w].closes == st.workers[w].closes
    requires forall u :: u != t ==> PcOf(st', u) == PcOf(st, u)
    requires Todo(PcOf(st', t)) == Todo(PcOf(st, t))
    ensures OwnedOnce(st', owners)
  {
    assert forall u :: Todo(PcOf(st', u)) == Todo(PcOf(st, u));
  }

  /** Nor does it disturb building if it neither starts nor stops. */
  lemma MovePreservesBuilding(st: State, st': State, builders: map<Session, Thread>, t: Thread)
    requires BuiltOnce(st, builders)
    requires st'.tb.creating == st.tb.creating && st'.calls == st.calls && st'.tb.workers.Keys <= st.tb.workers.Keys
    requires forall u :: u != t ==> PcOf(st', u) == PcOf(st, u)
    requires PcOf(st', t) == PcOf(st, t) || (!PcOf(st', t).Building? && !PcOf(st, t).Building?)
    requires JoinOk(st', PcOf(st', t))
    ensures BuiltOnce(st', builders)
  {
    forall u
      ensures JoinOk(st', PcOf(st', u))
    {
      assert JoinOk(st, PcOf(st, u));
    }
  }

  lemma LookKeeps(st: State, l: Ledger, t: Thread) returns (l': Ledger)
    requires Sound(st, l) && PcOf(st, t).Looking?
    ensures Sound(After(st, LookStep(t)), l')
  {
    var s := PcOf(st, t).session;
    var st' := After(st, LookStep(t));
    assert forall u :: u != t ==> PcOf(st', u) == PcOf(st, u);
    if s in st.tb.workers {
      l' := TakeOrUseKeeps(st, st', l, t, s);
    } else {
      l' := JoinOrBuildKeeps(st, st', l, t, s);
    }
  }

  lemma TakeOrUseKeeps(st: State, st': State, l: Ledger, t: Thread, s: Session) returns (l': Ledger)
    requires Sound(st, l) && Todo(PcOf(st, t)) == [] && !PcOf(st, t).Building? && s in st.tb.workers
    requires st'.workers == st.workers && st'.calls == st.calls && st'.tb.creating == st.tb.creating
    requires forall u :: u != t ==> PcOf(st', u) == PcOf(st, u)
    requires var w := st.tb.workers[s];
             || (st'.tb.workers == st.tb.workers - {s} && PcOf(st', t) == Evicting(s, w))
             || (st'.tb.workers == st.tb.workers && PcOf(st', t) == Returned(s, w, None))
    ensures Sound(st', l')
  {
    l' := l;
    if PcOf(st', t).Evicting? {
      l' := l.(owners := Reaped(l.owners, [s], t));
      TakingKeepsOwnership(st, st', l.owners, t, [s]);
    } else {
      MovePreservesOwnership(st, st', l.owners, t);
    }
    MovePreservesBuilding(st, st', l.builders, t);
  }

  lemma JoinOrBuildKeeps(st: State, st': State, l: Ledger, t: Thread, s: Session) returns (l': Ledger)
    requires Sound(st, l) && PcOf(st, t).Looking? && PcOf(st, t).session == s && s !in st.tb.workers
    requires st' == After(st, LookStep(t)) && forall u :: u != t ==> PcOf(st', u) == PcOf(st, u)
    ensures Sound(st', l')
  {
    l' := l;
    MovePreservesOwnership(st, st', l.owners, t);
    if s in st.tb.creating {
      assert s in l.builders;
      MovePreservesBuilding(st, st', l.builders, t);
    } else {
      l' := l.(builders := l.builders[s := t]);
      BuildKeepsBuilding(st, st', l.builders, t, s);
    }
  }

  lemma NewCallKeepsJoins(st: State, st': State, t: Thread, s: Session)
    requires forall u :: JoinOk(st, PcOf(st, u))
    requires s !in st.tb.creating && st'.tb.creating == st.tb.creating[s := |st.calls|]
    requires st'.calls == st.calls + [InFlight(s)]
    requires PcOf(st', t) == Building(s, |st.calls|) && forall u :: u != t ==> PcOf(st', u) == PcOf(st, u)
    ensures forall u :: JoinOk(st', PcOf(st', u))
  {
    forall u
      ensures JoinOk(st', PcOf(st', u))
    {
      assert JoinOk(st, PcOf(st, u));
    }
  }

  lemma {:induction false} BuildKeepsBuilding(st: State, st': State, builders: map<Session, Thread>, t: Thread, s: Session)
    requires BuiltOnce(st, builders) && !PcOf(st, t).Building?
    requires s !in st.tb.workers && s !in st.tb.creating
    requires st'.tb.workers == st.tb.workers && st'.tb.creating == st.tb.creating[s := |st.calls|]
    requires st'.calls == st.calls + [InFlight(s)]
    requires PcOf(st', t) == Building(s, |st.calls|) && forall u :: u != t ==> PcOf(st', u) == PcOf(st, u)
    ensures BuiltOnce(st', builders[s := t])
  {
    NewCallKeepsJoins(st, st', t, s);
    forall u | PcOf(st', u).Building?
      ensures PcOf(st', u).session in builders[s := t] && builders[s := t][PcOf(st', u).session] == u
    {
      assert u != t ==> PcOf(st, u).session in builders;
    }
  }

  lemma CloseOneKeeps(st: State, l: Ledger, t: Thread) returns (l': Ledger)
    requires Sound(st, l) && Todo(PcOf(st, t)) != []
    ensures Sound(After(st, CloseOne(t)), l')
  {
    var st' := After(st, CloseOne(t));
    var pc := PcOf(st, t);
    var w := Todo(pc)[0];
    l' := l.(owners := l.owners[w := Closed]);
    assert Todo(PcOf(st', t)) == Todo(pc)[1..];
    CloseKeepsOwnership(st, st', l.owners, t, w);
    MovePreservesBuilding(st, st', l.builders, t);
  }

  lemma {:induction false} CloseKeepsOwnership(st: State, st': State, owners: seq<Owner>, t: Thread, w: Worker)
    requires OwnedOnce(st, owners) && w < |st.workers|
    requires st'.tb.workers == st.tb.workers
    requires st'.workers == st.workers[w := st.workers[w].(closes := st.workers[w].closes + 1)]
    requires Todo(PcOf(st, t)) != [] && Todo(PcOf(st, t))[0] == w && Todo(PcOf(st', t)) == Todo(PcOf(st, t))[1..]
    requires forall u :: u != t ==> PcOf(st', u) == PcOf(st, u)
    ensures OwnedOnce(st', owners[w := Closed])
  {
    var owners' := owners[w := Closed];
    assert Distinct(Todo(PcOf(st, t)));
    forall v | 0 <= v < |owners'|
      ensures OwnerOk(st', v, owners'[v])
    {
      assert OwnerOk(st, v, owners[v]);
      ClosedOwnerOk(st, st', v, owners[v], t, w);
    }
    forall u, i | 0 <= i < |Todo(PcOf(st', u))|
      ensures Todo(PcOf(st', u))[i] < |owners'| && owners'[Todo(PcOf(st', u))[i]] == OwedBy(u)
    {
      assert Todo(PcOf(st', u))[i] == Todo(PcOf(st, u))[if u == t then i + 1 else i];
    }
  }

  lemma ClosedOwnerOk(st: State, st': State, v: Worker, owner: Owner, t: Thread, w: Worker)
    requires v < |st.workers| && w < |st.workers| && OwnerOk(st, v, owner) && (v == w ==> owner == OwedBy(t))
    requires st'.tb.workers == st.tb.workers
    requires st'.workers == st.workers[w := st.workers[w].(closes := st.workers[w].closes + 1)]
    requires Todo(PcOf(st, t)) != [] && Todo(PcOf(st, t))[0] == w && Todo(PcOf(st', t)) == Todo(PcOf(st, t))[1..]
    requires forall u :: u != t ==> PcOf(st', u) == PcOf(st, u)
    ensures OwnerOk(st', v, if v == w then Closed else owner)
  {
    var todo := Todo(PcOf(st, t));
    assert todo == [w] + todo[1..];
    assert v != w && v in todo ==> v in todo[1..];
  }

  lemma PublishKeeps(st: State, l: Ledger, t: Thread, ok: bool) returns (l': Ledger)
    requires Sound(st, l) && PcOf(st, t).Building?
    ensures Sound(After(st, Publish(t, ok)), l')
  {
    var s := PcOf(st, t).session;
    var st' := After(st, Publish(t, ok));
    l' := Ledger(if ok then l.owners + [Registered(s)] else l.owners, l.builders - {s});
    PublishKeepsOwnership(st, l, t, ok);
    PublishKeepsBuilding(st, l.builders, t, ok);
  }

  lemma PublishKeepsOwnership(st: State, l: Ledger, t: Thread, ok: bool)
    requires Sound(st, l) && PcOf(st, t).Building?
    ensures OwnedOnce(After(st, Publish(t, ok)), if ok then l.owners + [Registered(PcOf(st, t).session)] else l.owners)
  {
    var st' := After(st, Publish(t, ok));
    if !ok {
      MovePreservesOwnership(st, st', l.owners, t);
    } else {
      assert forall u :: u != t ==> PcOf(st', u) == PcOf(st, u);
      NewWorkerIsOwned(st, st', l.owners, t, PcOf(st, t).session);
    }
  }

  lemma NewWorkerIsOwned(st: State, st': State, owners: seq<Owner>, t: Thread, s: Session)
    requires OwnedOnce(st, owners) && s !in st.tb.workers
    requires st'.tb.workers == st.tb.workers[s := |owners|]
    requires st'.workers == st.workers + [WorkerState(Idle, false, 0)]
    requires forall u :: u != t ==> PcOf(st', u) == PcOf(st, u)
    requires Todo(PcOf(st', t)) == Todo(PcOf(st, t))
    ensures OwnedOnce(st', owners + [Registered(s)])
  {
    var owners' := owners + [Registered(s)];
    assert forall u :: Todo(PcOf(st', u)) == Todo(PcOf(st, u));
    forall w | 0 <= w < |owners'|
      ensures OwnerOk(st', w, owners'[w])
    {
      if w < |owners| {
        assert OwnerOk(st, w, owners[w]);
      }
    }
  }

  lemma PublishKeepsJoin(st: State, builders: map<Session, Thread>, t: Thread, ok: bool, u: Thread)
    requires BuiltOnce(st, builders) && PcOf(st, t).Building?
    ensures JoinOk(After(st, Publish(t, ok)), PcOf(After(st, Publish(t, ok)), u))
  {
    assert JoinOk(st, PcOf(st, u));
  }

  lemma PublishKeepsBuilding(st: State, builders: map<Session, Thread>, t: Thread, ok: bool)
    requires BuiltOnce(st, builders) && PcOf(st, t).Building?
    ensures BuiltOnce(After(st, Publish(t, ok)), builders - {PcOf(st, t).session})
  {
    var s := PcOf(st, t).session;
    var st' := After(st, Publish(t, ok));
    forall u
      ensures JoinOk(st', PcOf(st', u))
      ensures PcOf(st', u).Building? ==> PcOf(st', u) == PcOf(st, u) && PcOf(st, u).session != s
    {
      PublishKeepsJoin(st, builders, t, ok, u);
    }
  }

  lemma TakingKeeps(st: State, l: Ledger, t: Thread, victims: seq<Session>) returns (l': Ledger)
    requires Sound(st, l) && PcOf(st, t).Outside? && CanTake(st, victims)
    ensures Sound(AfterTaking(st, t, victims), l')
  {
    var st' := AfterTaking(st, t, victims);
    l' := l.(owners := Reaped(l.owners, victims, t));
    assert forall u :: u != t ==> PcOf(st', u) == PcOf(st, u);
    TakingKeepsOwnership(st, st', l.owners, t, victims);
    MovePreservesBuilding(st, st', l.builders, t);
  }

  lemma TakingKeepsOwnership(st: State, st': State, owners: seq<Owner>, t: Thread, victims: seq<Session>)
    requires OwnedOnce(st, owners) && CanTake(st, victims) && Todo(PcOf(st, t)) == []
    requires st'.workers == st.workers && st'.tb.workers == st.tb.workers - (set s | s in victims)
    requires var dead := Todo(PcOf(st', t));
             |dead| == |victims| && forall i :: 0 <= i < |victims| ==> dead[i] == st.tb.workers[victims[i]]
    requires forall u :: u != t ==> PcOf(st', u) == PcOf(st, u)
    ensures OwnedOnce(st', Reaped(owners, victims, t))
  {
    var owners', dead := Reaped(owners, victims, t), Todo(PcOf(st', t));
    forall w | 0 <= w < |owners'|
      ensures OwnerOk(st', w, owners'[w])
    {
      assert OwnerOk(st, w, owners[w]);
      TakenOwnerOk(st, st', w, owners[w], t, victims);
    }
    forall i, j | 0 <= i < j < |dead|
      ensures dead[i] != dead[j]
    {
      assert owners[dead[i]] == Registered(victims[i]) && owners[dead[j]] == Registered(victims[j]);
    }
  }

  lemma TakenOwnerOk(st: State, st': State, w: Worker, owner: Owner, t: Thread, victims: seq<Session>)
    requires w < |st.workers| && OwnerOk(st, w, owner) && Todo(PcOf(st, t)) == []
    requires forall i :: 0 <= i < |victims| ==> victims[i] in st.tb.workers
    requires st'.workers == st.workers && st'.tb.workers == st.tb.workers - (set s | s in victims)
    requires var dead := Todo(PcOf(st', t));
             |dead| == |victims| && forall i :: 0 <= i < |victims| ==> dead[i] == st.tb.workers[victims[i]]
    requires forall u :: u != t ==> PcOf(st', u) == PcOf(st, u)
    ensures OwnerOk(st', w, if owner.Registered? && owner.session in victims then OwedBy(t) else owner)
  {
    if owner.Registered? && owner.session in victims {
      var i :| 0 <= i < |victims| && victims[i] == owner.session;
      assert Todo(PcOf(st', t))[i] == w;
    }
  }

  function Reaped(owners: seq<Owner>, victims: seq<Session>, t: Thread): seq<Owner>
  {
    seq(|owners|, w requires 0 <= w < |owners| =>
      if owners[w].Registered? && owners[w].session in victims then OwedBy(t) else owners[w])
  }

  /** A goroutine goes from one place to another, touching no worker and no call. */
  lemma MoveKeeps(st: State, st': State, l: Ledger, t: Thread)
    requires Sound(st, l)
    requires st'.tb.workers == st.tb.workers && st'.tb.creating == st.tb.creating
    requires st'.workers == st.workers && st'.calls == st.calls
    requires forall u :: u != t ==> PcOf(st', u) == PcOf(st, u)
    requires !PcOf(st, t).Building? && !PcOf(st', t).Building? && Todo(PcOf(st, t)) == Todo(PcOf(st', t)) == []
    requires JoinOk(st', PcOf(st', t))
    ensures Sound(st', l)
  {
    MovePreservesOwnership(st, st', l.owners, t);
    MovePreservesBuilding(st, st', l.builders, t);
  }

  lemma EnterKeeps(st: State, l: Ledger, t: Thread, s: Session, send: bool)
    requires Sound(st, l)
    ensures Sound(After(st, Enter(t, s, send)), l)
  {
    var st' := After(st, Enter(t, s, send));
    if st' != st {
      assert PcOf(st', t) == Looking(s) && forall u :: u != t ==> PcOf(st', u) == PcOf(st, u);
      MoveKeeps(st, st', l, t);
    }
  }

  lemma WakeKeeps(st: State, l: Ledger, t: Thread)
    requires Sound(st, l)
    ensures Sound(After(st, Wake(t)), l)
  {
    var st' := After(st, Wake(t));
    if st' != st {
      assert JoinOk(st, PcOf(st, t));
      assert forall u :: u != t ==> PcOf(st', u) == PcOf(st, u);
      MoveKeeps(st, st', l, t);
    }
  }

  lemma LeaveKeeps(st: State, l: Ledger, t: Thread)
    requires Sound(st, l)
    ensures Sound(After(st, Leave(t)), l)
  {
    var st' := After(st, Leave(t));
    if st' != st {
      assert PcOf(st', t) == Outside && forall u :: u != t ==> PcOf(st', u) == PcOf(st, u);
      MoveKeeps(st, st', l, t);
    }
  }

  lemma WorkerChangeMovesNobody(st: State, w: Worker, status: Status, overdue: bool)
    ensures var st' := After(st, WorkerChange(w, status, overdue));
            && st'.tb == st.tb && st'.calls == st.calls && st'.threads == st.threads && |st'.workers| == |st.workers|
            && (forall v :: 0 <= v < |st.workers| ==> st'.workers[v].closes == st.workers[v].closes)
            && forall u :: PcOf(st', u) == PcOf(st, u)
  {
  }

  lemma WorkerChangeKeeps(st: State, l: Ledger, w: Worker, status: Status, overdue: bool)
    requires Sound(st, l)
    ensures Sound(After(st, WorkerChange(w, status, overdue)), l)
  {
    var st' := After(st, WorkerChange(w, status, overdue));
    WorkerChangeMovesNobody(st, w, status, overdue);
    assert JoinOk(st, PcOf(st, 0));
    MovePreservesOwnership(st, st', l.owners, 0);
    MovePreservesBuilding(st, st', l.builders, 0);
  }

  lemma StepKeeps(st: State, l: Ledger, e: Step) returns (l': Ledger)
    requires Sound(st, l)
    ensures Sound(After(st, e), l')
  {
    l' := l;
    if After(st, e) != st {
      match e
      case Enter(t, s, send) => EnterKeeps(st, l, t, s, send);
      case Wake(t) => WakeKeeps(st, l, t);
      case Leave(t) => LeaveKeeps(st, l, t);
      case WorkerChange(w, status, overdue) => WorkerChangeKeeps(st, l, w, status, overdue);
      case LookStep(t) => l' := LookKeeps(st, l, t);
      case CloseOne(t) => l' := CloseOneKeeps(st, l, t);
      case Publish(t, ok) => l' := PublishKeeps(st, l, t, ok);
      case Sweep(t, victims) => l' := TakingKeeps(st, l, t, victims);
      case CloseAll(t, victims) => l' := TakingKeeps(st, l, t, victims);
    }
  }

  /** In every interleaving of callers, reaper, closer and worker failures. */
  lemma {:induction false} EveryRunIsSound(tr: Trace) returns (l: Ledger)
    ensures Sound(Run(tr), l)
  {
    match tr
    case Start => l := Ledger([], map[]);
    case Then(before, e) =>
      l := EveryRunIsSound(before);
      l := StepKeeps(Run(before), l, e);
  }

  /** At most one factory call per session is in flight, and a session being built has no
      registered worker: the branch that keeps an existing worker is never taken. */
  lemma {:induction false} SingleFlight(tr: Trace, t: Thread, u: Thread)
    requires PcOf(Run(tr), t).Building? && PcOf(Run(tr), u).Building?
    requires PcOf(Run(tr), t).session == PcOf(Run(tr), u).session
    ensures t == u
    ensures PcOf(Run(tr), t).session !in Run(tr).tb.workers
  {
    var l := EveryRunIsSound(tr);
  }

  /** Everyone who went through the same createCall, its creator included, got the same worker. */
  lemma {:induction false} WaitersShareTheWorker(tr: Trace, t: Thread, u: Thread)
    requires var a, b := PcOf(Run(tr), t), PcOf(Run(tr), u);
             a.Returned? && b.Returned? && a.via.Some? && a.via == b.via
    ensures PcOf(Run(tr), t).worker == PcOf(Run(tr), u).worker
  {
    var l := EveryRunIsSound(tr);
    assert JoinOk(Run(tr), PcOf(Run(tr), t)) && JoinOk(Run(tr), PcOf(Run(tr), u));
  }

  /** When the factory answers, a new worker is registered and handed to its builder and, through the call, to
      everyone who joined it; a failure registers nothing and refuses them all. */
  lemma {:induction false} PublishHandsOut(tr: Trace, t: Thread, ok: bool)
    requires PcOf(Run(tr), t).Building?
    ensures var before, after, s, c := Run(tr), Run(Then(tr, Publish(t, ok))), PcOf(Run(tr), t).session, PcOf(Run(tr), t).call;
            var w := |before.workers|;
            && s !in before.tb.workers && c < |before.calls| && |after.calls| == |before.calls|
            && after.tb.workers == (if ok then before.tb.workers[s := w] else before.tb.workers)
            && after.tb.creating == before.tb.creating - {s}
            && after.calls[c] == Done(s, if ok then Some(w) else None)
            && PcOf(after, t) == (if ok then Returned(s, w, Some(c)) else Refused(s))
            && |after.workers| == |before.workers| + if ok then 1 else 0
  {
    var l := EveryRunIsSound(tr);
    assert PcOf(Run(tr), t).session in l.builders;
  }

  /** A waiter wakes to what its call holds, and not before the call is done. */
  lemma {:induction false} WakeHandsOut(tr: Trace, t: Thread)
    requires PcOf(Run(tr), t).Waiting?
    ensures var st, pc, after := Run(tr), PcOf(Run(tr), t), PcOf(Run(Then(tr, Wake(t))), t);
            && pc.call < |st.calls|
            && match st.calls[pc.call]
               case InFlight(_) => after == pc
               case Done(_, Some(w)) => after == Returned(pc.session, w, Some(pc.call))
               case Done(_, None) => after == Refused(pc.session)
  {
    var l := EveryRunIsSound(tr);
    assert JoinOk(Run(tr), PcOf(Run(tr), t));
  }

  /** A worker fails, a goroutine comes upon it, takes it out and closes it. */
  function FailedAndClosed(tr: Trace, t: Thread, w: Worker): Trace
  {
    Then(Then(Then(tr, WorkerChange(w, Erring, false)), LookStep(t)), CloseOne(t))
  }

  lemma {:induction false} FailedIsClosed(tr: Trace, t: Thread, s: Session)
    requires PcOf(Run(tr), t) == Looking(s) && s in Run(tr).tb.workers
    ensures var before, w := Run(tr), Run(tr).tb.workers[s];
            var after := Run(FailedAndClosed(tr, t, w));
            && w < |before.workers| && |after.workers| == |before.workers| && after.workers[w].closes == 1
            && after.tb.workers == before.tb.workers - {s} && s !in after.tb.creating && PcOf(after, t) == Looking(s)
  {
    var st, w := Run(tr), Run(tr).tb.workers[s];
    var l := EveryRunIsSound(tr);
    assert OwnerOk(st, w, l.owners[w]) && s !in st.tb.creating;
    WorkerChangeMovesNobody(st, w, Erring, false);
    FailedIsTakenOut(Run(Then(tr, WorkerChange(w, Erring, false))), t, s);
  }

  /** Whoever comes upon a failed worker takes it out, closes it and has a new one built, which it gets. */
  lemma {:induction false} FailedWorkerIsReplaced(tr: Trace, t: Thread, s: Session)
    requires PcOf(Run(tr), t) == Looking(s) && s in Run(tr).tb.workers
    ensures var before, w := Run(tr), Run(tr).tb.workers[s];
            var after := Run(Then(Then(FailedAndClosed(tr, t, w), LookStep(t)), Publish(t, true)));
            && w < |before.workers| && |after.workers| == |before.workers| + 1
            && after.tb.workers == before.tb.workers[s := |before.workers|] && after.workers[w].closes == 1
            && PcOf(after, t).Returned? && PcOf(after, t).worker == |before.workers|
  {
    var st, w := Run(tr), Run(tr).tb.workers[s];
    FailedIsClosed(tr, t, s);
    NobodyThereIsBuilt(FailedAndClosed(tr, t, w), t, s);
    assert (st.tb.workers - {s})[s := |st.workers|] == st.tb.workers[s := |st.workers|];
  }

  /** A look at a session uses the healthy worker that is registered, or joins the creation under way. */
  lemma {:induction false} LookUsesOrJoins(tr: Trace, t: Thread, s: Session)
    requires PcOf(Run(tr), t) == Looking(s)
    ensures var st, after := Run(tr), Run(Then(tr, LookStep(t)));
            && (s in st.tb.workers && !ErringWorker(st, st.tb.workers[s]) ==>
                  after == Moved(st, t, Returned(s, st.tb.workers[s], None)))
            && (s !in st.tb.workers && s in st.tb.creating ==> after == Moved(st, t, Waiting(s, st.tb.creating[s])))
  {
  }

  /** Who comes while a worker is being created gets that worker, the one its creator gets and that is registered. */
  lemma {:induction false} JoinerGetsTheNewWorker(tr: Trace, t: Thread, u: Thread, s: Session)
    requires PcOf(Run(tr), t) == Looking(s) && PcOf(Run(tr), u).Building? && PcOf(Run(tr), u).session == s
    ensures var published := Then(Then(tr, LookStep(t)), Publish(u, true));
            var w, st := |Run(tr).workers|, Run(Then(published, Wake(t)));
            && PcOf(st, t).Returned? && PcOf(st, t).worker == w && PcOf(st, u).Returned? && PcOf(st, u).worker == w
            && s in st.tb.workers && st.tb.workers[s] == w
  {
    BuilderIsTheOne(tr, u);
    LookUsesOrJoins(tr, t, s);
    var joined := Then(tr, LookStep(t));
    assert PcOf(Run(joined), u) == PcOf(Run(tr), u) && |Run(joined).workers| == |Run(tr).workers|;
    PublishHandsOut(joined, u, true);
    var published := Then(joined, Publish(u, true));
    assert PcOf(Run(published), t) == Waiting(s, Run(tr).tb.creating[s]);
    WakeHandsOut(published, t);
    assert PcOf(Run(Then(published, Wake(t))), u) == PcOf(Run(published), u);
  }

  lemma {:induction false} BuilderIsTheOne(tr: Trace, u: Thread)
    requires PcOf(Run(tr), u).Building?
    ensures var st, pc := Run(tr), PcOf(Run(tr), u);
            pc.session !in st.tb.workers && pc.session in st.tb.creating && st.tb.creating[pc.session] == pc.call
  {
    var l := EveryRunIsSound(tr);
    assert PcOf(Run(tr), u).session in l.builders;
  }

  lemma {:induction false} NobodyThereIsBuilt(tr: Trace, t: Thread, s: Session)
    requires PcOf(Run(tr), t) == Looking(s) && s !in Run(tr).tb.workers && s !in Run(tr).tb.creating
    ensures var before, after := Run(tr), Run(Then(Then(tr, LookStep(t)), Publish(t, true)));
            && after.tb.workers == before.tb.workers[s := |before.workers|]
            && after.workers == before.workers + [WorkerState(Idle, false, 0)]
            && PcOf(after, t).Returned? && PcOf(after, t).worker == |before.workers|
  {
  }

  lemma {:induction false} FailedIsTakenOut(st: State, t: Thread, s: Session)
    requires PcOf(st, t) == Looking(s) && s in st.tb.workers && ErringWorker(st, st.tb.workers[s])
    ensures var w, after := st.tb.workers[s], After(After(st, LookStep(t)), CloseOne(t));
            && after.tb == st.tb.(workers := st.tb.workers - {s}) && after.calls == st.calls
            && PcOf(after, t) == Looking(s) && |after.workers| == |st.workers|
            && after.workers[w].closes == st.workers[w].closes + 1
  {
  }

  /** A waiter whose call is still in flight is waiting for a builder that is really at work. */
  lemma {:induction false} NobodyWaitsForNothing(tr: Trace, t: Thread)
    requires PcOf(Run(tr), t).Waiting?
    ensures var pc := PcOf(Run(tr), t);
            pc.call < |Run(tr).calls| &&
            (Run(tr).calls[pc.call].Done? || exists u :: PcOf(Run(tr), u) == Building(pc.session, pc.call))
  {
    var l := EveryRunIsSound(tr);
    assert JoinOk(Run(tr), PcOf(Run(tr), t));
  }

  /** No worker is ever closed twice, and none that is registered has been closed. */
  lemma {:induction false} ClosedAtMostOnce(tr: Trace, w: Worker)
    requires w < |Run(tr).workers|
    ensures Run(tr).workers[w].closes <= 1
    ensures (exists s :: s in Run(tr).tb.workers && Run(tr).tb.workers[s] == w) ==> Run(tr).workers[w].closes == 0
  {
    var l := EveryRunIsSound(tr);
    assert OwnerOk(Run(tr), w, l.owners[w]);
  }

  // --- Sends in flight -----------------------------------------------------------

  ghost function Senders(st: State, s: Session): set<Thread>
  {
    set t | t in st.sending && st.sending[t] == s
  }

  /** pendingSends counts exactly the goroutines inside Send, and keeps no zero entries. */
  ghost predicate Counted(st: State)
  {
    && (forall s :: PendingSends(st.tb, s) == |Senders(st, s)|)
    && (forall s :: s in st.tb.pendingSends ==> st.tb.pendingSends[s] > 0)
  }

  lemma OneMoreSender(st: State, st': State, t: Thread, s: Session, x: Session)
    requires t !in st.sending && st'.sending == st.sending[t := s]
    ensures t !in Senders(st, x) && Senders(st', x) == Senders(st, x) + if x == s then {t} else {}
  {
    forall u
      ensures u in Senders(st', x) <==> u in Senders(st, x) || (u == t && x == s)
    {
    }
  }

  lemma BeginCountsOne(st: State, st': State, t: Thread, s: Session, x: Session)
    requires t !in st.sending && st'.sending == st.sending[t := s]
    ensures |Senders(st', x)| == |Senders(st, x)| + if x == s then 1 else 0
  {
    OneMoreSender(st, st', t, s, x);
    if x != s {
      assert Senders(st', x) == Senders(st, x);
    }
  }

  lemma EndCountsOne(st: State, st': State, t: Thread, x: Session)
    requires t in st.sending && st'.sending == st.sending - {t}
    ensures |Senders(st, x)| == |Senders(st', x)| + if x == st.sending[t] then 1 else 0
  {
    assert st.sending == st'.sending[t := st.sending[t]];
    BeginCountsOne(st', st, t, st.sending[t], x);
  }

  lemma BeginCounts(st: State, st': State, t: Thread, s: Session)
    requires Counted(st) && t !in st.sending
    requires st'.sending == st.sending[t := s] && st'.tb.pendingSends == AfterBegin(st.tb, s).pendingSends
    ensures Counted(st')
  {
    forall x
      ensures PendingSends(st'.tb, x) == |Senders(st', x)|
    {
      assert PendingSends(st.tb, x) == |Senders(st, x)|;
      BeginCountsOne(st, st', t, s, x);
    }
  }

  lemma {:induction false} EndCounts(st: State, st': State, t: Thread)
    requires Counted(st) && t in st.sending
    requires st'.sending == st.sending - {t} && st'.tb.pendingSends == AfterEnd(st.tb, st.sending[t]).pendingSends
    ensures Counted(st')
  {
    forall x
      ensures PendingSends(st'.tb, x) == |Senders(st', x)|
    {
      assert PendingSends(st.tb, x) == |Senders(st, x)|;
      EndCountsOne(st, st', t, x);
    }
  }

  lemma {:induction false} SameSendsCount(st: State, st': State)
    requires Counted(st) && st'.sending == st.sending && st'.tb.pendingSends == st.tb.pendingSends
    ensures Counted(st')
  {
    forall x
      ensures PendingSends(st'.tb, x) == |Senders(st', x)|
    {
      assert PendingSends(st.tb, x) == |Senders(st, x)|;
    }
  }

  lemma {:induction false} SendStepCounts(st: State, e: Step)
    requires Counted(st)
    ensures Counted(After(st, e))
  {
    var st' := After(st, e);
    if e.Enter? && st' != st && e.send {
      BeginCounts(st, st', e.t, e.session);
    } else if e.Leave? && st' != st && e.t in st.sending {
      EndCounts(st, st', e.t);
    } else {
      SameSendsCount(st, st');
    }
  }

  lemma {:induction false} SendsAreCounted(tr: Trace)
    ensures Counted(Run(tr))
  {
    if tr.Then? {
      SendsAreCounted(tr.before);
      SendStepCounts(Run(tr.before), tr.step);
    } else {
      assert forall s :: Senders(Run(tr), s) == {};
    }
  }

  /** While any Send to a session is in flight its status never reads idle. */
  lemma {:induction false} NeverIdleMidSend(tr: Trace, t: Thread, worker: Status)
    requires t in Run(tr).sending
    ensures Reported(Run(tr).tb, Run(tr).sending[t], worker) != Idle
  {
    SendsAreCounted(tr);
    assert t in Senders(Run(tr), Run(tr).sending[t]);
  }

  /** What Status answers for a session: the status of the worker registered for it goes into it. */
  function StatusOf(st: State, s: Session): Status
    requires s in st.tb.workers ==> st.tb.workers[s] < |st.workers|
  {
    Reported(st.tb, s, if s in st.tb.workers then st.workers[st.tb.workers[s]].status else Idle)
  }

  /** In every run a session reads idle exactly when no goroutine is inside a Send to it and it has no worker
      or an idle one; and without a Send, or with a worker that is not idle, it reads as its worker does. */
  lemma StatusTellsWhatGoesOn(tr: Trace, s: Session)
    ensures var st := Run(tr);
            && (s in st.tb.workers ==> st.tb.workers[s] < |st.workers|)
            && (StatusOf(st, s) == Idle <==>
                  (forall t :: t in st.sending ==> st.sending[t] != s)
                  && (s in st.tb.workers ==> st.workers[st.tb.workers[s]].status == Idle))
            && (s in st.tb.workers && st.workers[st.tb.workers[s]].status != Idle ==>
                  StatusOf(st, s) == st.workers[st.tb.workers[s]].status)
            && (StatusOf(st, s) != Idle && (s in st.tb.workers ==> st.workers[st.tb.workers[s]].status == Idle) ==>
                  StatusOf(st, s) == Running)
  {
    var st := Run(tr);
    var l := EveryRunIsSound(tr);
    SendsAreCounted(tr);
    NoSendersIff(st, s);
  }

  lemma NoSendersIff(st: State, s: Session)
    requires Counted(st)
    ensures PendingSends(st.tb, s) == 0 <==> forall t :: t in st.sending ==> st.sending[t] != s
  {
    assert PendingSends(st.tb, s) == |Senders(st, s)|;
    if forall t :: t in st.sending ==> st.sending[t] != s {
      assert Senders(st, s) == {};
    } else {
      var t :| t in st.sending && st.sending[t] == s;
      assert t in Senders(st, s);
    }
  }

  // --- Workers in use ----------------------------------------------------------------

  /** The worker a goroutine has been given, whether or not it has woken to see it. */
  function Given(st: State, t: Thread): Option<Worker>
  {
    match PcOf(st, t)
    case Returned(_, w, _) => Some(w)
    case Waiting(_, c) => if c < |st.calls| && st.calls[c].Done? then st.calls[c].worker else None
    case _ => None
  }

  /** A goroutine inside Send is on its way through workerFor for the session it sends to. */
  ghost predicate SendsAtWork(st: State)
  {
    forall t :: t in st.sending ==> AtWorkOn(PcOf(st, t), st.sending[t])
  }

  predicate AtWorkOn(pc: Pc, s: Session) { !pc.Outside? && !pc.Closing? && pc.session == s }

  predicate Has(st: State, s: Session, w: Worker) { s in st.tb.workers && st.tb.workers[s] == w }

  /** Every Send that was given a worker still finds it in the table. */
  ghost predicate InHand(st: State)
  {
    forall t :: t in st.sending && Given(st, t).Some? ==> Has(st, st.sending[t], Given(st, t).value)
  }

  /** The step takes the session's worker out: a sweep or Close with the session among its victims, or
      a look at the session while its worker is in the error state. */
  ghost predicate Takes(st: State, e: Step, s: Session)
  {
    && s in st.tb.workers
    && match e
       case Sweep(t, victims) => PcOf(st, t).Outside? && CanSweep(st, victims) && s in victims
       case CloseAll(t, victims) => PcOf(st, t).Outside? && CanCloseAll(st, victims) && s in victims
       case LookStep(t) => PcOf(st, t) == Looking(s) && ErringWorker(st, st.tb.workers[s])
       case _ => false
  }

  /** The step takes out a worker some Send has been given. */
  ghost predicate TakesWorkerInUse(st: State, e: Step)
  {
    exists t :: t in st.sending && Given(st, t).Some? && Takes(st, e, st.sending[t])
  }

  lemma TakingOut(st: State, t: Thread, victims: seq<Session>, s: Session)
    requires CanTake(st, victims) && s in st.tb.workers
    ensures s !in AfterTaking(st, t, victims).tb.workers <==> s in victims
    ensures s !in victims ==> Has(AfterTaking(st, t, victims), s, st.tb.workers[s])
  {
  }

  lemma PublishTakesNoOneOut(st: State, l: Ledger, t: Thread, ok: bool, s: Session)
    requires Sound(st, l) && s in st.tb.workers
    ensures Has(After(st, Publish(t, ok)), s, st.tb.workers[s])
  {
    if PcOf(st, t).Building? {
      assert PcOf(st, t).session in l.builders;
    }
  }

  /** A registered worker leaves its place in exactly those steps; nothing replaces it in place. */
  lemma LeavesTheTableIff(st: State, l: Ledger, e: Step, s: Session)
    requires Sound(st, l) && s in st.tb.workers
    ensures !Has(After(st, e), s, st.tb.workers[s]) <==> Takes(st, e, s)
    ensures Takes(st, e, s) ==> s !in After(st, e).tb.workers
  {
    match e
    case Sweep(t, victims) =>
      if CanSweep(st, victims) {
        TakingOut(st, t, victims, s);
      }
    case CloseAll(t, victims) =>
      if CanCloseAll(st, victims) {
        TakingOut(st, t, victims, s);
      }
    case Publish(t, ok) => PublishTakesNoOneOut(st, l, t, ok, s);
    case LookStep(t) => LookTakesOut(st, t, s);
    case _ =>
  }

  lemma LookTakesOut(st: State, t: Thread, s: Session)
    requires s in st.tb.workers
    ensures !Has(After(st, LookStep(t)), s, st.tb.workers[s]) <==> Takes(st, LookStep(t), s)
    ensures Takes(st, LookStep(t), s) ==> s !in After(st, LookStep(t)).tb.workers
  {
  }

  lemma SendStaysAtWork(st: State, e: Step)
    requires SendsAtWork(st)
    ensures SendsAtWork(After(st, e))
  {
    var st' := After(st, e);
    forall t | t in st'.sending
      ensures AtWorkOn(PcOf(st', t), st'.sending[t])
    {
      assert t in st.sending ==> AtWorkOn(PcOf(st, t), st.sending[t]);
    }
  }

  lemma LookGives(st: State, t: Thread, u: Thread)
    requires SendsAtWork(st) && JoinOk(st, PcOf(st, u)) && u in st.sending && PcOf(st, t).Looking?
    requires (forall s :: s in st.tb.creating ==> st.tb.creating[s] < |st.calls| && st.calls[st.tb.creating[s]].InFlight?)
    ensures var st' := After(st, LookStep(t));
            Given(st', u) == Given(st, u) || (Given(st', u).Some? && Has(st', st.sending[u], Given(st', u).value))
  {
    assert AtWorkOn(PcOf(st, u), st.sending[u]);
  }

  lemma PublishGives(st: State, t: Thread, ok: bool, u: Thread)
    requires SendsAtWork(st) && JoinOk(st, PcOf(st, u)) && u in st.sending && PcOf(st, t).Building?
    requires PcOf(st, t).session !in st.tb.workers && PcOf(st, t).call < |st.calls|
    requires st.calls[PcOf(st, t).call] == InFlight(PcOf(st, t).session)
    ensures var st' := After(st, Publish(t, ok));
            Given(st', u) == Given(st, u) || (Given(st', u).Some? && Has(st', st.sending[u], Given(st', u).value))
  {
    assert AtWorkOn(PcOf(st, u), st.sending[u]);
  }

  /** What a Send has been given changes only when it is given something, and that is registered. */
  lemma GivenIsRegistered(st: State, l: Ledger, e: Step, t: Thread)
    requires Sound(st, l) && SendsAtWork(st) && t in After(st, e).sending && Given(After(st, e), t).Some?
    ensures (t in st.sending && Given(st, t) == Given(After(st, e), t) && st.sending[t] == After(st, e).sending[t])
            || Has(After(st, e), After(st, e).sending[t], Given(After(st, e), t).value)
  {
    assert JoinOk(st, PcOf(st, t));
    if e.LookStep? && PcOf(st, e.t).Looking? {
      LookGives(st, e.t, t);
    } else if e.Publish? && PcOf(st, e.t).Building? {
      PublishGives(st, e.t, e.ok, t);
    } else {
      OtherStepsGiveNothing(st, e, t);
    }
  }

  lemma OtherStepsGiveNothing(st: State, e: Step, t: Thread)
    requires JoinOk(st, PcOf(st, t)) && t in After(st, e).sending && Given(After(st, e), t).Some?
    requires e.LookStep? ==> !PcOf(st, e.t).Looking?
    requires e.Publish? ==> !PcOf(st, e.t).Building?
    ensures t in st.sending && Given(st, t) == Given(After(st, e), t) && st.sending[t] == After(st, e).sending[t]
  {
  }

  lemma TakingLeavesTheGivenWithoutIt(st: State, l: Ledger, e: Step, t: Thread)
    requires Sound(st, l) && t in st.sending && Given(st, t).Some? && Takes(st, e, st.sending[t])
    ensures !InHand(After(st, e))
  {
    var st' := After(st, e);
    assert e.t != t;
    assert t in st'.sending && st'.sending[t] == st.sending[t] && Given(st', t) == Given(st, t);
    LeavesTheTableIff(st, l, e, st.sending[t]);
    assert !Has(st', st'.sending[t], Given(st', t).value);
  }

  /** While every Send finds its worker in the table, a step keeps it so exactly when it does not take
      out a worker some Send has been given. */
  lemma StaysInHandIff(st: State, l: Ledger, e: Step)
    requires Sound(st, l) && SendsAtWork(st) && InHand(st)
    ensures InHand(After(st, e)) <==> !TakesWorkerInUse(st, e)
  {
    var st' := After(st, e);
    if TakesWorkerInUse(st, e) {
      var t :| t in st.sending && Given(st, t).Some? && Takes(st, e, st.sending[t]);
      TakingLeavesTheGivenWithoutIt(st, l, e, t);
    } else {
      forall t | t in st'.sending && Given(st', t).Some?
        ensures Has(st', st'.sending[t], Given(st', t).value)
      {
        GivenIsRegistered(st, l, e, t);
        if t in st.sending && Given(st, t) == Given(st', t) && st.sending[t] == st'.sending[t] {
          LeavesTheTableIff(st, l, e, st.sending[t]);
        }
      }
    }
  }

  /** Some step so far took out a worker a Send had been given. */
  ghost predicate Disturbed(tr: Trace)
  {
    tr.Then? && (Disturbed(tr.before) || TakesWorkerInUse(Run(tr.before), tr.step))
  }

  lemma {:induction false} SendsAlwaysAtWork(tr: Trace)
    ensures SendsAtWork(Run(tr))
  {
    if tr.Then? {
      SendsAlwaysAtWork(tr.before);
      SendStaysAtWork(Run(tr.before), tr.step);
    }
  }

  /** At every moment of the run every Send finds the worker it was given in the table. */
  ghost predicate AlwaysInHand(tr: Trace)
  {
    InHand(Run(tr)) && (tr.Then? ==> AlwaysInHand(tr.before))
  }

  lemma {:induction false} AlwaysInHandIffUndisturbed(tr: Trace)
    ensures AlwaysInHand(tr) <==> !Disturbed(tr)
  {
    if tr.Then? {
      AlwaysInHandIffUndisturbed(tr.before);
      if AlwaysInHand(tr.before) {
        SendsAlwaysAtWork(tr.before);
        var l := EveryRunIsSound(tr.before);
        StaysInHandIff(Run(tr.before), l, tr.step);
      }
    }
  }

  /** In a run in which no step takes out a worker in use, none is ever closed under a Send. */
  lemma NoWorkerInUseIsClosed(tr: Trace, t: Thread)
    requires !Disturbed(tr) && t in Run(tr).sending && Given(Run(tr), t).Some?
    ensures var st, w := Run(tr), Given(Run(tr), t).value;
            Has(st, st.sending[t], w) && w < |st.workers| && st.workers[w].closes == 0
  {
    AlwaysInHandIffUndisturbed(tr);
    var l := EveryRunIsSound(tr);
    var st, w := Run(tr), Given(Run(tr), t).value;
    assert Has(st, st.sending[t], w);
    assert OwnerOk(st, w, l.owners[w]);
  }

  /** A sweep or Close that passes over sessions with pending sends takes no worker in use. */
  lemma PassingOverPendingSendsDisturbsNothing(st: State, e: Step)
    requires Counted(st) && (e.Sweep? || e.CloseAll?)
    requires forall i :: 0 <= i < |e.victims| ==> PendingSends(st.tb, e.victims[i]) == 0
    ensures !TakesWorkerInUse(st, e)
  {
    forall t | t in st.sending
      ensures !Takes(st, e, st.sending[t])
    {
      assert t in Senders(st, st.sending[t]);
      assert PendingSends(st.tb, st.sending[t]) == |Senders(st, st.sending[t])|;
    }
  }

  /** Sweeps and Close pass over pending sends, and no worker in use is evicted for an error. */
  ghost predicate Careful(tr: Trace)
  {
    tr.Then? ==>
      && Careful(tr.before)
      && (tr.step.Sweep? || tr.step.CloseAll? ==>
            forall i :: 0 <= i < |tr.step.victims| ==> PendingSends(Run(tr.before).tb, tr.step.victims[i]) == 0)
      && (tr.step.LookStep? ==> !TakesWorkerInUse(Run(tr.before), tr.step))
  }

  lemma {:induction false} CarefulIsUndisturbed(tr: Trace)
    requires Careful(tr)
    ensures !Disturbed(tr)
  {
    if tr.Then? {
      CarefulIsUndisturbed(tr.before);
      if tr.step.Sweep? || tr.step.CloseAll? {
        SendsAreCounted(tr.before);
        PassingOverPendingSendsDisturbsNothing(Run(tr.before), tr.step);
      }
    }
  }

  // --- The sweep as it is ------------------------------------------------------------

  const BUILT := Then(Then(Then(Start, Enter(1, "s", true)), LookStep(1)), Publish(1, true))

  /** Goroutine 1 has a worker built and leaves; the worker is idle for longer than the TTL. */
  const LEFT := Then(BUILT, Leave(1))
  const RESTING := Then(LEFT, WorkerChange(0, Idle, true))

  lemma OneGoroutineBuilds()
    ensures var st := Run(BUILT);
            && st.tb.workers == map["s" := 0] && st.tb.creating == map[] && st.tb.pendingSends == map["s" := 1]
            && st.workers == [WorkerState(Idle, false, 0)] && st.sending == map[1 := "s"]
            && PcOf(st, 1).Returned? && PcOf(st, 0) == Outside && PcOf(st, 2) == Outside
  {
    var looked := Run(BUILT.before);
    assert looked.tb == Tables(map[], map["s" := 0], map["s" := 1]) && looked.sending == map[1 := "s"];
    assert PcOf(looked, 1) == Building("s", 0) && looked.calls == [InFlight("s")] && looked.workers == [];
    assert PcOf(looked, 0) == Outside && PcOf(looked, 2) == Outside;
    assert Run(BUILT) == AfterPublish(looked, 1, "s", 0, true);
  }

  lemma LeavingEndsTheSend(st: State, t: Thread, s: Session)
    requires PcOf(st, t).Returned? && st.sending == map[t := s] && st.tb.pendingSends == map[s := 1]
    ensures var st' := After(st, Leave(t));
            && st'.tb == Tables(st.tb.workers, st.tb.creating, map[]) && st'.workers == st.workers
            && st'.sending == map[] && PcOf(st', t) == Outside && forall u :: u != t ==> PcOf(st', u) == PcOf(st, u)
  {
  }

  lemma NobodyIsSending()
    ensures var st := Run(LEFT);
            && st.tb == Tables(map["s" := 0], map[], map[]) && st.workers == [WorkerState(Idle, false, 0)]
            && st.sending == map[] && PcOf(st, 0) == Outside && PcOf(st, 2) == Outside
  {
    OneGoroutineBuilds();
    LeavingEndsTheSend(Run(BUILT), 1, "s");
  }

  lemma RestingHasAnOldWorker()
    ensures var st := Run(RESTING);
            && st.tb == Tables(map["s" := 0], map[], map[]) && st.workers == [WorkerState(Idle, true, 0)]
            && st.sending == map[] && PcOf(st, 0) == Outside && PcOf(st, 2) == Outside
  {
    NobodyIsSending();
    assert Run(RESTING) == After(Run(LEFT), WorkerChange(0, Idle, true));
  }

  const GIVEN := Then(Then(RESTING, Enter(0, "s", true)), LookStep(0))

  lemma EnteringGetsTheWorker(st: State, t: Thread, s: Session)
    requires PcOf(st, t).Outside? && t !in st.sending && s in st.tb.workers && !ErringWorker(st, st.tb.workers[s])
    ensures var st' := After(After(st, Enter(t, s, true)), LookStep(t));
            && st'.tb == AfterBegin(st.tb, s) && st'.workers == st.workers && st'.sending == st.sending[t := s]
            && PcOf(st', t) == Returned(s, st.tb.workers[s], None) && forall u :: u != t ==> PcOf(st', u) == PcOf(st, u)
  {
  }

  lemma TheOldWorkerIsGiven()
    ensures var st := Run(GIVEN);
            && st.tb.workers == map["s" := 0] && st.workers == [WorkerState(Idle, true, 0)]
            && st.sending == map[0 := "s"] && PcOf(st, 0) == Returned("s", 0, None) && PcOf(st, 2) == Outside
            && CanSweep(st, ["s"]) && PendingSends(st.tb, "s") == 1
  {
    RestingHasAnOldWorker();
    EnteringGetsTheWorker(Run(RESTING), 0, "s");
  }

  lemma SweptTakesItOut(st: State, s: Session)
    requires s in st.tb.workers && CanSweep(st, [s]) && PcOf(st, 2) == Outside
    ensures var st' := After(st, Sweep(2, [s]));
            && PcOf(st', 2) == Closing([st.tb.workers[s]]) && s !in st'.tb.workers
            && st'.workers == st.workers && st'.sending == st.sending && st'.calls == st.calls
            && PcOf(st', 0) == PcOf(st, 0) && Takes(st, Sweep(2, [s]), s)
  {
    assert [s][0] == s;
    assert PcOf(After(st, Sweep(2, [s])), 2).todo == [st.tb.workers[s]];
  }

  lemma TheSweeperClosesIt(st: State, w: Worker)
    requires PcOf(st, 2) == Closing([w]) && w < |st.workers|
    ensures var st' := After(st, CloseOne(2));
            && st'.tb == st.tb && st'.sending == st.sending && st'.calls == st.calls && PcOf(st', 0) == PcOf(st, 0)
            && |st'.workers| == |st.workers| && st'.workers[w].closes == st.workers[w].closes + 1
  {
  }

  /** The idle sweep does not look at sends in flight: a worker that has rested for longer than the
      TTL and was just given to a Send is taken out and closed under it. */
  lemma {:induction false} SweepMayCloseAWorkerInUse()
    ensures var st := Run(Then(Then(GIVEN, Sweep(2, ["s"])), CloseOne(2)));
            && 0 in st.sending && Given(st, 0) == Some(0) && "s" !in st.tb.workers
            && |st.workers| == 1 && st.workers[0].closes == 1
    ensures TakesWorkerInUse(Run(GIVEN), Sweep(2, ["s"])) && IdleTooLong(Run(GIVEN), 0)
  {
    TheOldWorkerIsGiven();
    SweptTakesItOut(Run(GIVEN), "s");
    var swept := Run(Then(GIVEN, Sweep(2, ["s"])));
    TheSweeperClosesIt(swept, 0);
  }
}
