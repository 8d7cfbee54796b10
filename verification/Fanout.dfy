/**
 Fan-out of server events to one browser connection (internal/server/server.go and
 internal/server/events.go): a bounded channel, flags that coalesce keyed events, and the
 handler that takes events off, clears the flag and writes.

 The flag is set after the send, both under the client's lock; taking from the channel needs
 no lock, clearing the flag does. These are the steps below.
 */
module Fanout {
  import opened Prelude

  const CAPACITY: nat := 16

  datatype Event = Reload | NewSession | Keyless(text: string)

  /** Events with a coalescing key are their own key. */
  predicate Keyed(e: Event) { !e.Keyless? }

  datatype Handler = Waiting | Holding(event: Event) | Writing(event: Event)

  /** `flagging` is a keyed event sent whose flag is not set yet; its sender holds the lock. */
  datatype Client = Client(ch: seq<Event>, queued: set<Event>, flagging: Option<Event>, handler: Handler)

  datatype Step =
    | Broadcast(event: Event)
    | SetFlag
    | Take
    | ClearFlag
    | Write

  datatype Trace = Start | Then(before: Trace, step: Step)

  predicate Coalesces(c: Client, e: Event) { Keyed(e) && e in c.queued }

  predicate Drops(c: Client, e: Event) { !Coalesces(c, e) && |c.ch| >= CAPACITY }

  /** Steps that would have to wait for the lock or the channel leave the state unchanged. */
  function After(c: Client, s: Step): Client
  {
    match s
    case Broadcast(e) =>
      if c.flagging.Some? || Coalesces(c, e) || Drops(c, e) then c
      else c.(ch := c.ch + [e], flagging := if Keyed(e) then Some(e) else None)
    case SetFlag =>
      if c.flagging.None? then c else c.(queued := c.queued + {c.flagging.value}, flagging := None)
    case Take =>
      if !c.handler.Waiting? || c.ch == [] then c else c.(ch := c.ch[1..], handler := Holding(c.ch[0]))
    case ClearFlag =>
      if !c.handler.Holding? || (Keyed(c.handler.event) && c.flagging.Some?) then c
      else c.(queued := if Keyed(c.handler.event) then c.queued - {c.handler.event} else c.queued,
              handler := Writing(c.handler.event))
    case Write =>
      if c.handler.Writing? then c.(handler := Waiting) else c
  }

  function Run(t: Trace): Client
  {
    match t
    case Start => Client([], {}, None, Waiting)
    case Then(before, s) => After(Run(before), s)
  }

  /** How many events of key `k` are on the way: in the channel, or taken and not yet cleared. */
  function OnTheWay(c: Client, k: Event): nat
  {
    multiset(c.ch)[k] + if c.handler == Holding(k) then 1 else 0
  }

  /** Outside a broadcast's critical section a flag is set exactly when one event of its key is
      on the way; inside it, between send and flag, exactly one is and the flag is not set. */
  ghost predicate FlagsExact(c: Client)
  {
    && |c.ch| <= CAPACITY
    && (forall k :: Keyed(k) ==>
          if c.flagging == Some(k) then OnTheWay(c, k) == 1 && k !in c.queued
          else OnTheWay(c, k) == if k in c.queued then 1 else 0)
    && (forall k :: k in c.queued ==> Keyed(k))
    && (c.flagging.Some? ==> Keyed(c.flagging.value))
  }

  lemma TakeKeepsOnTheWay(c: Client, k: Event)
    requires c.handler.Waiting? && c.ch != []
    ensures OnTheWay(After(c, Take), k) == OnTheWay(c, k)
  {
    assert c.ch == [c.ch[0]] + c.ch[1..];
  }

  lemma StepKeepsFlags(c: Client, s: Step)
    requires FlagsExact(c)
    ensures FlagsExact(After(c, s))
  {
    var c' := After(c, s);
    if s.Take? && c' != c {
      forall k {
        TakeKeepsOnTheWay(c, k);
      }
    }
  }

  lemma {:induction false} FlagsAreExact(t: Trace)
    ensures FlagsExact(Run(t))
  {
    if t.Then? {
      FlagsAreExact(t.before);
      StepKeepsFlags(Run(t.before), t.step);
    }
  }

  /** Someone broadcast `k`, it was not dropped, and no write of `k` has started since. A write
      starts right after its flag is cleared. */
  predicate Owed(t: Trace, k: Event)
  {
    match t
    case Start => false
    case Then(before, s) =>
      var c := Run(before);
      if s == Broadcast(k) && c.flagging.None? && !Drops(c, k) then true
      else if s.ClearFlag? && c.handler == Holding(k) && After(c, s) != c then false
      else Owed(before, k)
  }

  /** A broadcast that was coalesced or sent is never forgotten: until a write of its key starts
      after it, an event of that key is on the way. */
  lemma {:induction false} OwedIsOnTheWay(t: Trace, k: Event)
    requires Keyed(k) && Owed(t, k)
    ensures OnTheWay(Run(t), k) == 1
  {
    var c := Run(t.before);
    FlagsAreExact(t);
    FlagsAreExact(t.before);
    if t.step == Broadcast(k) && c.flagging.None? && !Drops(c, k) {
    } else {
      OwedIsOnTheWay(t.before, k);
      if t.step.Take? && After(c, t.step) != c {
        TakeKeepsOnTheWay(c, k);
      }
    }
  }

  /** Once the channel is empty and the handler waits, every keyed broadcast not dropped has been
      followed by a write of its key that started after it. */
  lemma {:induction false} DrainedMeansNothingOwed(t: Trace, k: Event)
    requires Keyed(k) && Run(t).ch == [] && Run(t).handler.Waiting?
    ensures !Owed(t, k)
  {
    if Owed(t, k) {
      OwedIsOnTheWay(t, k);
    }
  }

  // --- Every event sent is written ---------------------------------------------------------

  /** The events put into the channel: nobody was between a send and its flag, the event's own flag was not
      set, and there was room. */
  function Sent(t: Trace): seq<Event>
  {
    match t
    case Start => []
    case Then(before, s) =>
      var c := Run(before);
      if s.Broadcast? && c.flagging.None? && s.event !in c.queued && |c.ch| < CAPACITY then Sent(before) + [s.event]
      else Sent(before)
  }

  /** The events whose write has ended. */
  function Written(t: Trace): seq<Event>
  {
    match t
    case Start => []
    case Then(before, s) =>
      var c := Run(before);
      if s.Write? && c.handler.Writing? then Written(before) + [c.handler.event] else Written(before)
  }

  function InHand(c: Client): seq<Event> { if c.handler.Waiting? then [] else [c.handler.event] }

  /** What was sent is what was written, what the handler holds and what is in the channel, in order. */
  lemma {:induction false} SentIsWrittenOrThere(t: Trace)
    ensures Sent(t) == Written(t) + InHand(Run(t)) + Run(t).ch
  {
    if t.Then? {
      SentIsWrittenOrThere(t.before);
      FlagsAreExact(t.before);
      LedgerStep(t, Run(t.before), t.step);
    }
  }

  lemma LedgerStep(t: Trace, c: Client, s: Step)
    requires t.Then? && s == t.step && c == Run(t.before) && (s.Broadcast? && s.event in c.queued ==> Keyed(s.event))
    requires Sent(t.before) == Written(t.before) + InHand(c) + c.ch
    ensures Sent(t) == Written(t) + InHand(Run(t)) + Run(t).ch
  {
    var written, hand := Written(t.before), InHand(c);
    match s
    case Broadcast(e) => AppendLast(written, hand, c.ch, e);
    case Take => TakeFirst(written, c.ch);
    case Write => WriteOne(written, hand, c.ch);
    case _ =>
  }

  lemma AppendLast(written: seq<Event>, hand: seq<Event>, ch: seq<Event>, e: Event)
    ensures written + hand + (ch + [e]) == written + hand + ch + [e]
  {
  }

  lemma TakeFirst(written: seq<Event>, ch: seq<Event>)
    ensures ch != [] ==> written + [] + ch == written + [ch[0]] + ch[1..]
  {
  }

  lemma WriteOne(written: seq<Event>, hand: seq<Event>, ch: seq<Event>)
    ensures (written + hand) + [] + ch == written + hand + ch
  {
  }

  /** One round of the handler. */
  function Round(t: Trace): Trace { Then(Then(Then(t, Take), ClearFlag), Write) }

  function Rounds(t: Trace, n: nat): Trace { if n == 0 then t else Round(Rounds(t, n - 1)) }

  /** The sender sets its flag, the handler ends what it is at, and goes on until the channel is empty. */
  function Drained(t: Trace): Trace { Rounds(Then(Then(Then(t, SetFlag), ClearFlag), Write), |Run(t).ch|) }

  lemma {:induction false} ThreeSteps(t: Trace, a: Step, b: Step, c: Step)
    requires !a.Broadcast? && !b.Broadcast? && !c.Broadcast?
    ensures var u := Then(Then(Then(t, a), b), c);
            Run(u) == After(After(After(Run(t), a), b), c) && Sent(u) == Sent(t)
  {
    assert Sent(Then(t, a)) == Sent(t);
    assert Run(Then(Then(t, a), b)) == After(After(Run(t), a), b) && Sent(Then(Then(t, a), b)) == Sent(t);
  }

  lemma {:induction false} RoundTakesOne(t: Trace)
    requires var c := Run(t); c.handler.Waiting? && c.flagging.None? && c.ch != []
    ensures var u := Run(Round(t));
            u.handler.Waiting? && u.flagging.None? && u.ch == Run(t).ch[1..] && Sent(Round(t)) == Sent(t)
  {
    ThreeSteps(t, Take, ClearFlag, Write);
  }

  lemma {:induction false} RoundsTakeAll(t: Trace, n: nat)
    requires var c := Run(t); c.handler.Waiting? && c.flagging.None? && n <= |c.ch|
    ensures var u := Run(Rounds(t, n));
            u.handler.Waiting? && u.flagging.None? && u.ch == Run(t).ch[n..] && Sent(Rounds(t, n)) == Sent(t)
  {
    if n > 0 {
      RoundsTakeAll(t, n - 1);
      RoundTakesOne(Rounds(t, n - 1));
    }
  }

  lemma {:induction false} NowWaits(t: Trace)
    ensures var u := Then(Then(Then(t, SetFlag), ClearFlag), Write);
            Run(u).handler.Waiting? && Run(u).flagging.None? && Run(u).ch == Run(t).ch && Sent(u) == Sent(t)
  {
    ThreeSteps(t, SetFlag, ClearFlag, Write);
  }

  /** However a run went, the handler going on alone writes everything sent, in the order it was sent, and
      leaves no flag set. */
  lemma {:induction false} HandlerDrains(t: Trace)
    ensures Written(Drained(t)) == Sent(t)
    ensures Run(Drained(t)) == Client([], {}, None, Waiting)
  {
    var u := Then(Then(Then(t, SetFlag), ClearFlag), Write);
    NowWaits(t);
    RoundsTakeAll(u, |Run(t).ch|);
    var c := Run(Drained(t));
    SentIsWrittenOrThere(Drained(t));
    FlagsAreExact(Drained(t));
    forall k
      ensures k !in c.queued
    {
      assert OnTheWay(c, k) == 0;
    }
  }

  /** A broadcast that finds its key's lock free and is not dropped is written after it: a write of its key
      ends that had not started when the event was broadcast. */
  lemma {:induction false} BroadcastIsWritten(t: Trace, k: Event)
    requires Keyed(k) && Run(t).flagging.None? && !Drops(Run(t), k)
    ensures var u, started := Then(t, Broadcast(k)), |Written(t)| + if Run(t).handler.Writing? then 1 else 0;
            started <= |Written(Drained(u))| && k in Written(Drained(u))[started..]
  {
    var u := Then(t, Broadcast(k));
    var c := Run(u);
    HandlerDrains(u);
    SentIsWrittenOrThere(u);
    assert Owed(u, k);
    OwedIsOnTheWay(u, k);
    LaterPart(Written(u), InHand(c), c.ch, c.handler.Writing?, k);
  }

  lemma LaterPart(written: seq<Event>, hand: seq<Event>, ch: seq<Event>, writing: bool, k: Event)
    requires |hand| <= 1 && (writing ==> |hand| == 1) && (k in ch || (!writing && k in hand))
    ensures k in (written + hand + ch)[|written| + (if writing then 1 else 0)..]
  {
    var all, from := written + hand + ch, |written| + (if writing then 1 else 0);
    if k in ch {
      var i :| 0 <= i < |ch| && ch[i] == k;
      assert all[from..][|written| + |hand| + i - from] == k;
    } else {
      assert all[from..][0] == k;
    }
  }

  lemma {:induction false} KeyedOrNot(ch: seq<Event>, n: nat)
    requires n <= |ch|
    ensures multiset(ch[..n])[Reload] + multiset(ch[..n])[NewSession] + KeylessCount(ch, n) == n
  {
    if n > 0 {
      KeyedOrNot(ch, n - 1);
      assert ch[..n] == ch[..n - 1] + [ch[n - 1]];
    }
  }

  function KeylessCount(ch: seq<Event>, n: nat): nat
    requires n <= |ch|
  {
    if n == 0 then 0 else KeylessCount(ch, n - 1) + if Keyed(ch[n - 1]) then 0 else 1
  }

  /** Exactly when a keyed event is lost: the channel is full and holds none of its key (nor does
      the handler), which takes at least all but one of its places filled with keyless events. */
  lemma {:induction false} KeyedDropNeedsKeylessFlood(t: Trace, k: Event)
    requires Keyed(k) && Run(t).flagging.None?
    ensures Drops(Run(t), k) <==> |Run(t).ch| == CAPACITY && OnTheWay(Run(t), k) == 0
    ensures Drops(Run(t), k) ==> KeylessCount(Run(t).ch, CAPACITY) >= CAPACITY - 1
  {
    var c := Run(t);
    FlagsAreExact(t);
    if Drops(c, k) {
      assert c.ch[..CAPACITY] == c.ch;
      KeyedOrNot(c.ch, CAPACITY);
      var other := if k == Reload then NewSession else Reload;
      assert OnTheWay(c, other) <= 1;
    }
  }

  function Flood(n: nat): Trace
  {
    if n == 0 then Start else Then(Flood(n - 1), Broadcast(Keyless("status-delta")))
  }

  lemma {:induction false} FloodFills(n: nat)
    requires n <= CAPACITY
    ensures |Run(Flood(n)).ch| == n && Run(Flood(n)).queued == {} && Run(Flood(n)).flagging == None
  {
    if n > 0 {
      FloodFills(n - 1);
    }
  }

  /** Such a loss does happen: sixteen status events and then a reload. */
  lemma {:induction false} AKeyedEventCanBeDropped()
    ensures Drops(Run(Flood(CAPACITY)), Reload)
  {
    FloodFills(CAPACITY);
  }

  // --- Registration and closing --------------------------------------------------

  /** A connection and the session it watches. */
  datatype Conn = Conn(number: nat, session: string)

  /** A broadcast inside its read section: whom it is for, and the clients it has still to come by. */
  datatype Visit = Visit(session: string, rest: seq<Conn>)

  /** The client list with its read-write lock, and the broadcasts inside their read section; `removed`
      clients are off the list with their channel not closed yet. */
  datatype Hub = Hub(clients: seq<Conn>, visiting: map<nat, Visit>, removed: set<Conn>, closed: set<Conn>)

  datatype HubStep =
    | AddClient(c: Conn)
    | RemoveClient(c: Conn)
    | CloseChannel(c: Conn)
    | BeginBroadcast(b: nat, session: string)
    | Offer(b: nat)
    | EndBroadcast(b: nat)

  datatype HubTrace = HubStart | HubThen(before: HubTrace, step: HubStep)

  function Without(cs: seq<Conn>, c: Conn, n: nat): (r: seq<Conn>)
    requires n <= |cs|
    ensures |r| <= n
  {
    if n == 0 then []
    else if cs[n - 1] == c then Without(cs, c, n - 1)
    else Without(cs, c, n - 1) + [cs[n - 1]]
  }

  /** The others stay, in order. */
  lemma {:induction false} WithoutIsFiltered(cs: seq<Conn>, c: Conn, n: nat, keep: seq<bool>)
    requires n <= |cs| == |keep| && forall i :: 0 <= i < |cs| ==> (keep[i] <==> cs[i] != c)
    ensures Without(cs, c, n) == Filtered(cs[..n], keep[..n])
  {
    if n > 0 {
      WithoutIsFiltered(cs, c, n - 1, keep);
      OneMoreKept(cs, keep, n, Without(cs, c, n - 1));
    }
  }

  predicate Distinct(cs: seq<Conn>) { forall i, j :: 0 <= i < j < |cs| ==> cs[i] != cs[j] }

  lemma {:induction false} WithoutOne(cs: seq<Conn>, c: Conn, n: nat)
    requires n <= |cs|
    ensures forall d :: d in Without(cs, c, n) <==> d in cs[..n] && d != c
  {
    if n > 0 {
      WithoutOne(cs, c, n - 1);
      assert cs[..n] == cs[..n - 1] + [cs[n - 1]];
    }
  }

  lemma {:induction false} WithoutKeepsDistinct(cs: seq<Conn>, c: Conn, n: nat)
    requires n <= |cs| && Distinct(cs)
    ensures Distinct(Without(cs, c, n))
  {
    if n > 0 {
      WithoutKeepsDistinct(cs, c, n - 1);
      WithoutOne(cs, c, n - 1);
      assert cs[n - 1] !in cs[..n - 1];
    }
  }

  /** Writers wait for all readers; a handler removes its own client, once. */
  function AfterHub(h: Hub, s: HubStep): Hub
  {
    match s
    case AddClient(c) =>
      if h.visiting != map[] || c in h.clients || c in h.removed || c in h.closed then h
      else h.(clients := h.clients + [c])
    case RemoveClient(c) =>
      if h.visiting != map[] || c !in h.clients then h
      else h.(clients := Without(h.clients, c, |h.clients|), removed := h.removed + {c})
    case CloseChannel(c) =>
      if c !in h.removed then h else h.(removed := h.removed - {c}, closed := h.closed + {c})
    case BeginBroadcast(b, session) =>
      if b in h.visiting then h else h.(visiting := h.visiting[b := Visit(session, h.clients)])
    case Offer(b) =>
      if b !in h.visiting || h.visiting[b].rest == [] then h
      else h.(visiting := h.visiting[b := h.visiting[b].(rest := h.visiting[b].rest[1..])])
    case EndBroadcast(b) =>
      if b !in h.visiting || h.visiting[b].rest != [] then h else h.(visiting := h.visiting - {b})
  }

  function RunHub(t: HubTrace): Hub
  {
    match t
    case HubStart => Hub([], map[], {}, {})
    case HubThen(before, s) => AfterHub(RunHub(before), s)
  }

  ghost predicate HubSafe(h: Hub)
  {
    && (forall c :: c in h.clients ==> c !in h.removed && c !in h.closed)
    && Distinct(h.clients)
    && (forall b, c :: b in h.visiting && c in h.visiting[b].rest ==> c in h.clients)
  }

  lemma {:induction false} EveryRunIsSafe(t: HubTrace)
    ensures HubSafe(RunHub(t))
  {
    if t.HubThen? {
      EveryRunIsSafe(t.before);
      var h := RunHub(t.before);
      if t.step.RemoveClient? {
        WithoutKeepsDistinct(h.clients, t.step.c, |h.clients|);
        WithoutOne(h.clients, t.step.c, |h.clients|);
        assert h.clients[..|h.clients|] == h.clients;
      }
    }
  }

  /** The client a step offers an event to: the next one a broadcast comes by, if it watches the session. */
  function OfferedTo(h: Hub, s: HubStep): Option<Conn>
  {
    if s.Offer? && s.b in h.visiting && h.visiting[s.b].rest != [] && h.visiting[s.b].rest[0].session == h.visiting[s.b].session
    then Some(h.visiting[s.b].rest[0]) else None
  }

  /** No broadcast ever sends on a closed channel, at whatever point of whatever interleaving with removals. */
  lemma {:induction false} NeverSendsOnClosed(t: HubTrace, s: HubStep)
    ensures var h := RunHub(t); OfferedTo(h, s).Some? ==> OfferedTo(h, s).value !in h.closed
  {
    EveryRunIsSafe(t);
  }

  /** The client was added while no broadcast was under way. */
  predicate Joined(t: HubTrace, c: Conn)
  {
    t.HubThen? && (Joined(t.before, c) || (t.step == AddClient(c) && RunHub(t.before).visiting == map[]))
  }

  predicate Left(t: HubTrace, c: Conn)
  {
    t.HubThen?
    && (Left(t.before, c) || (t.step == RemoveClient(c) && Joined(t.before, c) && RunHub(t.before).visiting == map[]))
  }

  predicate Shut(t: HubTrace, c: Conn)
  {
    t.HubThen? && (Shut(t.before, c) || (t.step == CloseChannel(c) && Left(t.before, c)))
  }

  /** On the list is who joined and has not left; closed is the channel of who left, once its handler closes it. */
  lemma {:induction false} MembersAre(t: HubTrace, c: Conn)
    ensures var h := RunHub(t);
            && (c in h.clients <==> Joined(t, c) && !Left(t, c)) && (c in h.removed <==> Left(t, c) && !Shut(t, c))
            && (c in h.closed <==> Shut(t, c)) && (Shut(t, c) ==> Left(t, c)) && (Left(t, c) ==> Joined(t, c))
  {
    if t.HubThen? {
      MembersAre(t.before, c);
      var h := RunHub(t.before);
      EveryRunIsSafe(t.before);
      if t.step.RemoveClient? {
        WithoutOne(h.clients, t.step.c, |h.clients|);
        assert h.clients[..|h.clients|] == h.clients;
      }
    }
  }

  /** The clients a broadcast has offered its event to since it began. */
  function Offered(t: HubTrace, b: nat): seq<Conn>
  {
    match t
    case HubStart => []
    case HubThen(before, s) =>
      var h := RunHub(before);
      if s.BeginBroadcast? && s.b == b && b !in h.visiting then []
      else if s == Offer(b) && OfferedTo(h, s).Some? then Offered(before, b) + [OfferedTo(h, s).value]
      else Offered(before, b)
  }

  /** Those who watch a session, in order. */
  function Watching(cs: seq<Conn>, session: string): seq<Conn>
  {
    if cs == [] then []
    else (if cs[0].session == session then [cs[0]] else []) + Watching(cs[1..], session)
  }

  lemma {:induction false} WatchingIff(cs: seq<Conn>, session: string)
    ensures forall c :: c in Watching(cs, session) <==> c in cs && c.session == session
    ensures Distinct(cs) ==> Distinct(Watching(cs, session))
  {
    if cs != [] {
      WatchingIff(cs[1..], session);
      assert cs == [cs[0]] + cs[1..];
    }
  }

  /** A broadcast offers its event to every client on the list that watches its session, once and in order:
      those offered and those still to come make up all of them, and the list does not change meanwhile. */
  lemma {:induction false} OfferedAndToComeAreAll(t: HubTrace, b: nat)
    requires b in RunHub(t).visiting
    ensures var v := RunHub(t).visiting[b];
            Offered(t, b) + Watching(v.rest, v.session) == Watching(RunHub(t).clients, v.session)
  {
    var h := RunHub(t.before);
    if b in h.visiting {
      OfferedAndToComeAreAll(t.before, b);
      if t.step == Offer(b) && h.visiting[b].rest != [] {
        Regroup(Offered(t.before, b), h.visiting[b].rest[0], Watching(h.visiting[b].rest[1..], h.visiting[b].session));
      }
    }
  }

  lemma Regroup(a: seq<Conn>, c: Conn, b: seq<Conn>)
    ensures a + ([c] + b) == a + [c] + b && a + ([] + b) == a + b
  {
  }

  function Offers(t: HubTrace, b: nat, n: nat): HubTrace
  {
    if n == 0 then t else HubThen(Offers(t, b, n - 1), Offer(b))
  }

  lemma {:induction false} OffersTake(t: HubTrace, b: nat, n: nat)
    requires b in RunHub(t).visiting && n <= |RunHub(t).visiting[b].rest|
    ensures var h := RunHub(t);
            RunHub(Offers(t, b, n)) == h.(visiting := h.visiting[b := h.visiting[b].(rest := h.visiting[b].rest[n..])])
  {
    var h := RunHub(t);
    if n > 0 {
      OffersTake(t, b, n - 1);
    } else {
      assert h.visiting[b := h.visiting[b].(rest := h.visiting[b].rest[0..])] == h.visiting;
    }
  }

  /** Begun at any point, a broadcast that goes on alone reaches everyone on the list who watches its session,
      and leaves nothing behind. */
  lemma {:induction false} BroadcastReachesAll(t: HubTrace, b: nat, session: string)
    requires b !in RunHub(t).visiting
    ensures var u := HubThen(Offers(HubThen(t, BeginBroadcast(b, session)), b, |RunHub(t).clients|), EndBroadcast(b));
            RunHub(u) == RunHub(t) && Offered(u, b) == Watching(RunHub(t).clients, session)
  {
    var h := RunHub(t);
    var begun := HubThen(t, BeginBroadcast(b, session));
    var last := Offers(begun, b, |h.clients|);
    OffersTake(begun, b, |h.clients|);
    OfferedAndToComeAreAll(last, b);
    assert RunHub(last).visiting - {b} == h.visiting;
  }

  /** removeClient's filter, compacting the slice in place. */
  method FilterInPlace(clients: array<Conn>, len: nat, target: Conn) returns (kept: nat)
    requires len <= clients.Length
    modifies clients
    ensures kept <= len && clients[..kept] == Without(old(clients[..]), target, len)
    ensures clients[len..] == old(clients[len..])
  {
    kept := 0;
    for i := 0 to len
      invariant kept <= i
      invariant clients[..kept] == Without(old(clients[..]), target, i)
      invariant clients[i..] == old(clients[i..])
    {
      if clients[i] != target {
        clients[kept] := clients[i];
        kept := kept + 1;
      }
    }
  }

  // --- One client ------------------------------------------------------------------

  class SseClient {
    var ch: seq<Event>
    var queued: set<Event>

    constructor ()
      ensures ch == [] && queued == {}
    {
      ch, queued := [], {};
    }

    ghost function Value(handler: Handler): Client
      reads this
    {
      Client(ch, queued, None, handler)
    }

    /** The body of broadcast under the client's lock. */
    method Offer(msg: Event) returns (dropped: bool)
      modifies this
      ensures dropped == old(Drops(Value(Waiting), msg))
      ensures forall h :: Value(h) == After(After(old(Value(h)), Broadcast(msg)), SetFlag)
    {
      dropped := false;
      if Keyed(msg) && msg in queued {
        return;
      }
      if |ch| < CAPACITY {
        ch := ch + [msg];
        if Keyed(msg) {
          queued := queued + {msg};
        }
      } else {
        dropped := true;
      }
    }

    /** One round of the handler's loop up to the write. */
    method Next() returns (msg: Event)
      requires ch != []
      modifies this
      ensures Value(Writing(msg)) == After(After(old(Value(Waiting)), Take), ClearFlag)
    {
      msg := ch[0];
      ch := ch[1..];
      if Keyed(msg) {
        queued := queued - {msg};
      }
    }
  }
}
