/**
 The running set a browser shows (internal/server/status.go, internal/server/events.go): a
 snapshot of `lastKnown` followed by edge-triggered deltas. `lastKnown` is updated under its
 lock but the delta is broadcast after unlocking, so updates and broadcasts interleave.
 */
module Status {
  import opened Prelude
  import Fanout

  type Id = string

  /** A delta; `serial` numbers the deltas of its id from one and is not part of the message. */
  datatype Delta = Delta(id: Id, running: bool, serial: nat)

  /**
   `pending`: deltas of updates made whose broadcast has not happened yet, oldest first.
   `ch`, `others`, `view`: the deltas in the channel of one client registered for status events,
   how many other events take places in it, and what the client shows once its snapshot was
   written. Bookkeeping: `decided` counts the deltas of an id, `seen` holds for the client the
   serial last applied, or the number decided when the snapshot was taken; `tainted` holds the ids
   one of whose deltas was dropped on a full channel or overtook an older one, and that have not
   been put right since.
   */
  datatype State = State(
    lastKnown: set<Id>,
    pending: seq<Delta>,
    registered: bool,
    ch: seq<Delta>,
    others: nat,
    view: Option<set<Id>>,
    decided: map<Id, nat>,
    seen: map<Id, nat>,
    tainted: set<Id>)

  /** How many, by id; none when nothing is recorded. */
  function Number(m: map<Id, nat>, id: Id): nat { if id in m then m[id] else 0 }

  datatype Step =
    | Recompute(id: Id, running: bool)
    | Broadcast(i: nat)
    | Register
    | Snapshot
    | Deliver
    | OtherEvent    // a reload or new-session event is broadcast
    | DeliverOther

  datatype Trace = Start | Then(before: Trace, step: Step)

  function Applied(view: set<Id>, id: Id, running: bool): set<Id>
  {
    if running then view + {id} else view - {id}
  }

  /** The last of the first `n` deltas about `id`. */
  function Last(ds: seq<Delta>, n: nat, id: Id): Option<bool>
    requires n <= |ds|
  {
    if n == 0 then None else if ds[n - 1].id == id then Some(ds[n - 1].running) else Last(ds, n - 1, id)
  }

  function LastIn(ds: seq<Delta>, id: Id): Option<bool> { Last(ds, |ds|, id) }

  function Without(ds: seq<Delta>, i: nat): seq<Delta>
    requires i < |ds|
  {
    ds[..i] + ds[i + 1..]
  }

  /** A delta leaving `pending` at `i` overtakes if an older one of its id is still there. */
  predicate Overtakes(s: State, i: nat)
    requires i < |s.pending|
  {
    Last(s.pending, i, s.pending[i].id).Some?
  }

  /** The delta is the last word on its id, and it is true. */
  predicate SettlesTruly(s: State, i: nat)
    requires i < |s.pending|
  {
    var d := s.pending[i];
    LastIn(Without(s.pending, i), d.id).None? && d.running == (d.id in s.lastKnown)
  }

  predicate Full(s: State) { |s.ch| + s.others >= Fanout.CAPACITY }

  predicate Drops(s: State) { s.registered && Full(s) }

  function AfterBroadcast(s: State, i: nat): State
    requires i < |s.pending|
  {
    var d := s.pending[i];
    s.(pending := Without(s.pending, i),
       ch := if s.registered && !Drops(s) then s.ch + [d] else s.ch,
       tainted := if Drops(s) || Overtakes(s, i) then s.tainted + {d.id}
                  else if SettlesTruly(s, i) then s.tainted - {d.id}
                  else s.tainted)
  }

  function After(s: State, e: Step): State
  {
    match e
    case Recompute(id, running) =>
      if id == "" || running == (id in s.lastKnown) then s
      else
        var serial := Number(s.decided, id) + 1;
        s.(lastKnown := Applied(s.lastKnown, id, running),
           pending := s.pending + [Delta(id, running, serial)],
           decided := s.decided[id := serial])
    case Broadcast(i) => if i < |s.pending| then AfterBroadcast(s, i) else s
    case Register =>
      if s.registered then s else s.(registered := true)
    case Snapshot =>
      if !s.registered || s.view.Some? then s
      else s.(view := Some(s.lastKnown),
              seen := s.decided,
              tainted := set id | id in s.tainted && (LastIn(s.pending, id).Some? || LastIn(s.ch, id).Some?))
    case Deliver =>
      if s.view.None? || s.ch == [] then s
      else
        var d := s.ch[0];
        s.(ch := s.ch[1..], view := Some(Applied(s.view.value, d.id, d.running)), seen := s.seen[d.id := d.serial])
    case OtherEvent => if s.registered && !Full(s) then s.(others := s.others + 1) else s
    case DeliverOther => if s.view.None? || s.others == 0 then s else s.(others := s.others - 1)
  }

  function Run(t: Trace): State
  {
    match t
    case Start => State({}, [], false, [], 0, None, map[], map[], {})
    case Then(before, e) => After(Run(before), e)
  }

  /** What will last be said about `id` once everything is broadcast and delivered. */
  function Verdict(s: State, id: Id): Option<bool>
  {
    if LastIn(s.pending, id).Some? then LastIn(s.pending, id)
    else if LastIn(s.ch, id).Some? then LastIn(s.ch, id)
    else if s.view.Some? then Some(id in s.view.value)
    else None
  }

  /** For an untainted id, whatever is last said about it is the truth. */
  ghost predicate Truthful(s: State, id: Id)
  {
    && (LastIn(s.pending, id).Some? ==> LastIn(s.pending, id).value == (id in s.lastKnown))
    && (Verdict(s, id).Some? ==> Verdict(s, id).value == (id in s.lastKnown))
  }

  ghost predicate TellsTheTruth(s: State)
  {
    && (!s.registered ==> s.ch == [] && s.view.None?)
    && forall id :: id !in s.tainted ==> Truthful(s, id)
  }

  lemma {:induction false} LastAgrees(a: seq<Delta>, b: seq<Delta>, n: nat, id: Id)
    requires n <= |a| && n <= |b| && forall i :: 0 <= i < n ==> a[i] == b[i]
    ensures Last(a, n, id) == Last(b, n, id)
  {
    if n > 0 {
      LastAgrees(a, b, n - 1, id);
    }
  }

  lemma LastSnoc(ds: seq<Delta>, d: Delta, id: Id)
    ensures LastIn(ds + [d], id) == if d.id == id then Some(d.running) else LastIn(ds, id)
  {
    LastAgrees(ds + [d], ds, |ds|, id);
  }

  lemma {:induction false} LastAppend(a: seq<Delta>, b: seq<Delta>, n: nat, id: Id)
    requires n <= |b|
    ensures Last(a + b, |a| + n, id) == if Last(b, n, id).Some? then Last(b, n, id) else LastIn(a, id)
  {
    if n > 0 {
      LastAppend(a, b, n - 1, id);
    } else {
      LastAgrees(a + b, a, |a|, id);
    }
  }

  /** Taking a delta out of the middle: another id does not notice, nor does its own if an
      older or newer delta of it remains to say the last word. */
  lemma LastWithout(ds: seq<Delta>, i: nat, id: Id)
    requires i < |ds|
    ensures ds[i].id != id ==> LastIn(Without(ds, i), id) == LastIn(ds, id)
    ensures ds[i].id == id && Last(ds, i, id).None? && LastIn(Without(ds, i), id).Some? ==>
              LastIn(Without(ds, i), id) == LastIn(ds, id)
    ensures ds[i].id == id && LastIn(Without(ds, i), id).None? ==> LastIn(ds, id) == Some(ds[i].running)
    ensures Last(ds, i, id).Some? ==> LastIn(Without(ds, i), id).Some?
  {
    var older, newer := ds[..i], ds[i + 1..];
    LastAppend(older, newer, |newer|, id);
    LastAgrees(ds, older, i, id);
    assert ds == (older + [ds[i]]) + newer;
    LastAppend(older + [ds[i]], newer, |newer|, id);
    LastSnoc(older, ds[i], id);
  }

  lemma LastTail(ds: seq<Delta>, id: Id)
    requires ds != []
    ensures LastIn(ds, id) == if LastIn(ds[1..], id).Some? then LastIn(ds[1..], id)
                              else if ds[0].id == id then Some(ds[0].running) else None
  {
    assert ds == ds[..1] + ds[1..];
    LastAppend(ds[..1], ds[1..], |ds| - 1, id);
    LastSnoc([], ds[0], id);
    assert [] + [ds[0]] == ds[..1];
  }

  lemma BroadcastStaysTruthful(s: State, i: nat, id: Id)
    requires TellsTheTruth(s) && i < |s.pending| && id !in AfterBroadcast(s, i).tainted
    ensures Truthful(AfterBroadcast(s, i), id)
  {
    LastWithout(s.pending, i, id);
    LastSnoc(s.ch, s.pending[i], id);
    if id !in s.tainted {
      assert Truthful(s, id);
    }
  }

  lemma StepStaysTruthful(s: State, e: Step, id: Id)
    requires TellsTheTruth(s) && id !in After(s, e).tainted
    ensures Truthful(After(s, e), id)
  {
    match e
    case Recompute(x, running) =>
      assert Truthful(s, id);
      LastSnoc(s.pending, Delta(x, running, Number(s.decided, x) + 1), id);
    case Broadcast(i) =>
      if i < |s.pending| {
        BroadcastStaysTruthful(s, i, id);
      }
    case Register => assert Truthful(s, id);
    case Snapshot =>
      if id !in s.tainted {
        assert Truthful(s, id);
      }
    case Deliver =>
      assert Truthful(s, id);
      if s.ch != [] {
        LastTail(s.ch, id);
      }
    case _ => assert Truthful(s, id);
  }

  /** In every interleaving of updates, broadcasts, registration, snapshot and delivery. */
  lemma {:induction false} AlwaysTellsTheTruth(t: Trace)
    ensures TellsTheTruth(Run(t))
  {
    if t.Then? {
      AlwaysTellsTheTruth(t.before);
      forall id | id !in Run(t).tainted {
        StepStaysTruthful(Run(t.before), t.step, id);
      }
    }
  }

  /** All updates broadcast, everything delivered. */
  predicate Quiet(s: State) { s.pending == [] && s.ch == [] && s.view.Some? }

  /** Whatever went wrong with other ids, an untainted id is shown as it is. */
  lemma {:induction false} UntaintedIdsConverge(t: Trace, id: Id)
    requires Quiet(Run(t)) && id !in Run(t).tainted
    ensures id in Run(t).view.value <==> id in Run(t).lastKnown
  {
    AlwaysTellsTheTruth(t);
    assert Truthful(Run(t), id);
  }

  /** No delta was dropped on a full channel, none overtook an older one of its id. */
  predicate Orderly(t: Trace)
  {
    match t
    case Start => true
    case Then(before, e) =>
      var s := Run(before);
      Orderly(before) && (e.Broadcast? && e.i < |s.pending| ==> !Drops(s) && !Overtakes(s, e.i))
  }

  lemma {:induction false} OrderlyTaintsNothing(t: Trace)
    requires Orderly(t)
    ensures Run(t).tainted == {}
  {
    if t.Then? {
      OrderlyTaintsNothing(t.before);
    }
  }

  /** Register first, snapshot after, then drain: the client shows exactly the server's set,
      even if broadcasts of different sessions lag behind and overtake each other. */
  lemma {:induction false} OrderlyRunsConverge(t: Trace)
    requires Orderly(t) && Quiet(Run(t))
    ensures Run(t).view == Some(Run(t).lastKnown)
  {
    OrderlyTaintsNothing(t);
    forall id
      ensures id in Run(t).view.value <==> id in Run(t).lastKnown
    {
      UntaintedIdsConverge(t, id);
    }
    assert Run(t).view.value == Run(t).lastKnown;
  }

  /** If every broadcast takes the oldest delta waiting and finds room, nothing overtakes or is dropped. */
  predicate OldestFirst(t: Trace)
  {
    t.Then? ==>
      OldestFirst(t.before)
      && (t.step.Broadcast? ==> t.step.i == 0 && |Run(t.before).ch| + Run(t.before).others < Fanout.CAPACITY)
  }

  lemma {:induction false} OldestFirstIsOrderly(t: Trace)
    requires OldestFirst(t)
    ensures Orderly(t)
  {
    if t.Then? {
      OldestFirstIsOrderly(t.before);
    }
  }

  // --- The channel ------------------------------------------------------------------------

  predicate Registered(t: Trace) { t.Then? && (t.step.Register? || Registered(t.before)) }

  /** A snapshot was taken after registering. */
  predicate Snapshotted(t: Trace) { t.Then? && ((t.step.Snapshot? && Registered(t.before)) || Snapshotted(t.before)) }

  /** The step broadcasts an event, and the channel has room. */
  predicate Enters(s: State, e: Step)
  {
    (e.OtherEvent? || (e.Broadcast? && e.i < |s.pending|)) && |s.ch| + s.others < Fanout.CAPACITY
  }

  /** The step takes an event that is there. */
  predicate Takes(s: State, e: Step) { (e.Deliver? && s.ch != []) || (e.DeliverOther? && s.others > 0) }

  /** Events broadcast while the client was registered and its channel had room. */
  function Entered(t: Trace): nat
  {
    match t
    case Start => 0
    case Then(before, e) => Entered(before) + if Registered(before) && Enters(Run(before), e) then 1 else 0
  }

  /** Events there when the client, its snapshot written, came for them. */
  function Taken(t: Trace): nat
  {
    match t
    case Start => 0
    case Then(before, e) => Taken(before) + if Snapshotted(before) && Takes(Run(before), e) then 1 else 0
  }

  lemma {:induction false} ChannelStep(s: State, e: Step)
    ensures var u := After(s, e);
            && (u.registered <==> s.registered || e.Register?)
            && (u.view.Some? <==> s.view.Some? || (e.Snapshot? && s.registered))
            && |u.ch| + u.others == |s.ch| + s.others + (if s.registered && Enters(s, e) then 1 else 0)
                                    - (if s.view.Some? && Takes(s, e) then 1 else 0)
  {
  }

  /** A client is registered from its registration on and has a view from its snapshot on; what is in its
      channel, never more than the channel holds, is what went in and was not taken. */
  lemma {:induction false} ChannelHoldsTheRest(t: Trace)
    ensures var s := Run(t);
            && (s.registered <==> Registered(t)) && (s.view.Some? <==> Snapshotted(t))
            && |s.ch| + s.others + Taken(t) == Entered(t) && |s.ch| + s.others <= Fanout.CAPACITY
  {
    if t.Then? {
      ChannelHoldsTheRest(t.before);
      ChannelStep(Run(t.before), t.step);
    }
  }

  /** The snapshot shows what the server knows then, all that was decided so far included. */
  lemma {:induction false} SnapshotIsCurrent(t: Trace)
    requires Registered(t) && !Snapshotted(t)
    ensures var s := Run(Then(t, Snapshot));
            s.view == Some(Run(t).lastKnown) && s.seen == Run(t).decided
  {
    ChannelHoldsTheRest(t);
  }

  /** What the client shows is its snapshot with the deltas taken since applied, one after the other. */
  function Shown(t: Trace): set<Id>
  {
    match t
    case Start => {}
    case Then(before, e) =>
      if e.Snapshot? && !Snapshotted(before) then Run(before).lastKnown
      else if e.Deliver? && Run(before).ch != [] then
        var d := Run(before).ch[0];
        if d.running then Shown(before) + {d.id} else Shown(before) - {d.id}
      else Shown(before)
  }

  lemma {:induction false} ViewStep(s: State, e: Step)
    requires s.view.Some?
    ensures After(s, e).view.Some?
    ensures var v := After(s, e).view.value;
            v == if e.Deliver? && s.ch != [] then Applied(s.view.value, s.ch[0].id, s.ch[0].running) else s.view.value
  {
  }

  lemma {:induction false} ViewIsShown(t: Trace)
    requires Snapshotted(t)
    ensures Run(t).view == Some(Shown(t))
  {
    ChannelHoldsTheRest(t.before);
    if Snapshotted(t.before) {
      ViewIsShown(t.before);
      ViewStep(Run(t.before), t.step);
    } else {
      SnapshotIsCurrent(t.before);
    }
  }

  // --- Exactly when a session is shown as it is ---------------------------------------

  predicate Odd(n: nat) { n % 2 == 1 }

  /** The delta with an odd serial says running, the one with an even serial idle. */
  predicate InTurn(d: Delta) { d.running <==> Odd(d.serial) }

  predicate AllInTurn(ds: seq<Delta>) { forall i :: 0 <= i < |ds| ==> InTurn(ds[i]) }

  /** What the server knows and what the client shows follow from the two numbers. */
  ghost predicate Counted(s: State)
  {
    && (forall id :: id in s.lastKnown <==> Odd(Number(s.decided, id)))
    && AllInTurn(s.pending) && AllInTurn(s.ch)
    && (s.view.Some? ==> forall id :: id in s.view.value <==> Odd(Number(s.seen, id)))
  }

  lemma {:induction false} StaysCounted(s: State, e: Step)
    requires Counted(s)
    ensures Counted(After(s, e))
  {
    if e.Broadcast? && e.i < |s.pending| {
      assert InTurn(s.pending[e.i]);
    } else if e.Deliver? && s.ch != [] {
      assert InTurn(s.ch[0]);
    }
  }

  lemma {:induction false} AlwaysCounted(t: Trace)
    ensures Counted(Run(t))
  {
    if t.Then? {
      AlwaysCounted(t.before);
      StaysCounted(Run(t.before), t.step);
    }
  }

  /** In every run, drops and overtaking included, a client shows a session as it is exactly when the
      number of deltas decided about it and the serial it last applied differ by an even number. */
  lemma {:induction false} ShownAsItIsIff(t: Trace, id: Id)
    requires Run(t).view.Some?
    ensures (id in Run(t).view.value <==> id in Run(t).lastKnown) <==>
              (Number(Run(t).decided, id) - Number(Run(t).seen, id)) % 2 == 0
  {
    AlwaysCounted(t);
  }

  function Twice(t: Trace, a: Step, b: Step): Trace { Then(Then(t, a), b) }

  lemma {:induction false} TwoSteps(t: Trace, a: Step, b: Step)
    ensures Run(Twice(t, a, b)) == After(After(Run(t), a), b)
  {
  }

  /** Two deltas decided about a session whose client has seen all before them, broadcast in the wrong
      order and delivered. */
  function WrongOrder(t: Trace, id: Id): Trace
  {
    var running := id !in Run(t).lastKnown;
    Twice(Twice(Twice(t, Recompute(id, running), Recompute(id, !running)), Broadcast(1), Broadcast(0)), Deliver, Deliver)
  }

  lemma {:induction false} TwoDecided(s: State, id: Id, running: bool)
    requires id != "" && running == (id !in s.lastKnown) && s.pending == []
    ensures var n := Number(s.decided, id);
            var t := After(After(s, Recompute(id, running)), Recompute(id, !running));
            && t.pending == [Delta(id, running, n + 1), Delta(id, !running, n + 2)] && Number(t.decided, id) == n + 2
            && t == s.(lastKnown := t.lastKnown, pending := t.pending, decided := t.decided)
  {
  }

  lemma {:induction false} SentInWrongOrder(s: State, d: Delta, e: Delta)
    requires s.pending == [d, e] && s.registered && s.ch == [] && s.others + 1 < Fanout.CAPACITY && s.view.Some?
    ensures var t := After(After(s, Broadcast(1)), Broadcast(0));
            && t.pending == [] && t.ch == [e, d] && t.view.Some? && t.decided == s.decided
  {
    assert Without(s.pending, 1) == [d];
    assert Without([d], 0) == [];
  }

  lemma {:induction false} BothDelivered(s: State, d: Delta, e: Delta)
    requires s.ch == [e, d] && s.view.Some?
    ensures var t := After(After(s, Deliver), Deliver);
            t.ch == [] && t.pending == s.pending && t.view.Some? && t.decided == s.decided && Number(t.seen, d.id) == d.serial
  {
  }

  /** Order matters: however a run went, two updates of one session broadcast in the wrong order leave
      the client wrong about it, with nothing more on the way that could put it right. */
  lemma {:induction false} OvertakingDiverges(t: Trace, id: Id)
    requires id != "" && Quiet(Run(t)) && Run(t).registered && Run(t).others + 1 < Fanout.CAPACITY
    ensures var u := Run(WrongOrder(t, id));
            Quiet(u) && !(id in u.view.value <==> id in u.lastKnown)
  {
    var running, n := id !in Run(t).lastKnown, Number(Run(t).decided, id);
    var made := Twice(t, Recompute(id, running), Recompute(id, !running));
    TwoDecided(Run(t), id, running);
    TwoSteps(t, Recompute(id, running), Recompute(id, !running));
    DeliveredInWrongOrder(made, Delta(id, running, n + 1), Delta(id, !running, n + 2));
    ShownAsItIsIff(WrongOrder(t, id), id);
  }

  lemma DeliveredInWrongOrder(made: Trace, d: Delta, e: Delta)
    requires var s := Run(made);
             s.pending == [d, e] && s.registered && s.ch == [] && s.others + 1 < Fanout.CAPACITY && s.view.Some?
    ensures var u := Run(Twice(Twice(made, Broadcast(1), Broadcast(0)), Deliver, Deliver));
            && u.pending == [] && u.ch == [] && u.view.Some? && u.decided == Run(made).decided
            && Number(u.seen, d.id) == d.serial
  {
    var sent := Twice(made, Broadcast(1), Broadcast(0));
    SentInWrongOrder(Run(made), d, e);
    TwoSteps(made, Broadcast(1), Broadcast(0));
    BothDelivered(Run(sent), d, e);
    TwoSteps(sent, Deliver, Deliver);
  }

  // --- Edges ---------------------------------------------------------------------

  /** Every delta ever decided on, in order. */
  function Deltas(t: Trace): seq<Delta>
  {
    match t
    case Start => []
    case Then(before, e) =>
      if e.Recompute? && Run(t) != Run(before) then
        Deltas(before) + [Delta(e.id, e.running, Number(Run(t).decided, e.id))]
      else Deltas(before)
  }

  /** The last delta of a session says what is known of it. */
  lemma {:induction false} DeltasAreEdges(t: Trace, id: Id)
    ensures id in Run(t).lastKnown <==> LastIn(Deltas(t), id) == Some(true)
  {
    if t.Then? {
      DeltasAreEdges(t.before, id);
      if t.step.Recompute? {
        LastSnoc(Deltas(t.before), Delta(t.step.id, t.step.running, Number(Run(t).decided, t.step.id)), id);
      }
    }
  }

  /** The deltas of one session alternate: each differs from the one before it, and the first one says
      running. */
  lemma {:induction false} DeltasAlternate(t: Trace, j: nat)
    requires j < |Deltas(t)|
    ensures var d := Deltas(t)[j];
            d.running <==> Last(Deltas(t), j, d.id) != Some(true)
  {
    var before := Deltas(t.before);
    var d := Deltas(t)[j];
    LastAgrees(Deltas(t), before, if j < |before| then j else |before|, d.id);
    if j < |before| {
      DeltasAlternate(t.before, j);
    } else {
      DeltasAreEdges(t.before, d.id);
    }
  }

  // --- The board -------------------------------------------------------------------

  /** What is broadcast when a session's status changes. */
  datatype Change = Change(id: Id, running: bool)

  class StatusBoard {
    var lastKnown: set<Id>
    var pushes: seq<Id>  // done notifications fired, oldest first
    var kicks: seq<Id>   // queue drainer wake-ups, oldest first

    constructor ()
      ensures lastKnown == {} && pushes == [] && kicks == []
    {
      lastKnown, pushes, kicks := {}, [], [];
    }

    /** recomputeAndBroadcastStatus once the status is computed: a delta exactly on an edge, a
        push and a kick exactly on an edge from running to idle. */
    method Recompute(id: Id, now: bool) returns (delta: Option<Change>)
      modifies this
      ensures delta == if id == "" || now == (id in old(lastKnown)) then None else Some(Change(id, now))
      ensures lastKnown == if delta.Some? then Applied(old(lastKnown), id, now) else old(lastKnown)
      ensures pushes == old(pushes) + if delta == Some(Change(id, false)) then [id] else []
      ensures kicks == old(kicks) + if delta == Some(Change(id, false)) then [id] else []
    {
      if id == "" {
        return None;
      }
      var was := id in lastKnown;
      if now == was {
        return None;
      }
      if now {
        lastKnown := lastKnown + {id};
      } else {
        lastKnown := lastKnown - {id};
      }
      delta := Some(Change(id, now));
      if was && !now {
        pushes := pushes + [id];
        kicks := kicks + [id];
      }
    }
  }
}
