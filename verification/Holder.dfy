/**
 The detached worker-holder (internal/rpc/holder.go): it owns pi, hands pi's output
 to whichever connection is attached, queues it while none is, and replays the queue
 on attach up to a replay-end marker.

 A connection is modelled by how many more writes it will accept; that covers every
 pattern of write failures, because a connection is never written again after one.
 */
module Holder {
  import opened Prelude
  import opened Wire

  const MAX_QUEUED_LINES: nat := 8192

  datatype Frame = Info(sessionSwitched: bool) | Event(line: Line) | ReplayEnd

  /** The attached connection: writes it still accepts, and what it got so far. */
  datatype Link = Link(budget: nat, got: seq<Frame>)

  /** What connections received, newest last. */
  datatype History = Nobody | Served(before: History, got: seq<Frame>)

  /** `past` holds what each connection that is gone had received. */
  datatype State = State(past: History, client: Option<Link>, queue: seq<Line>, sessionSwitched: bool)

  datatype Step =
    | Emit(line: Line)
    | Attach(budget: nat)
    | Detach(conn: nat)
    | SwitchSession

  // --- The protocol ------------------------------------------------------------

  function Init(): State { State(Nobody, None, [], false) }

  ghost predicate WellFormed(s: State)
  {
    |s.queue| <= MAX_QUEUED_LINES && (s.client.Some? ==> s.queue == [])
  }

  function Written(l: Link, f: Frame): Link
    requires l.budget > 0
  {
    Link(l.budget - 1, l.got + [f])
  }

  /** Frames carrying lines `from..to` of `lines`. */
  function Events(lines: seq<Line>, from: nat, to: nat): (r: seq<Frame>)
    requires from <= to <= |lines|
    ensures |r| == to - from
  {
    if from == to then [] else Events(lines, from, to - 1) + [Event(lines[to - 1])]
  }

  function Newest(queue: seq<Line>): (r: seq<Line>)
    ensures |r| <= MAX_QUEUED_LINES
  {
    if |queue| > MAX_QUEUED_LINES then queue[|queue| - MAX_QUEUED_LINES..] else queue
  }

  /** What every connection received, gone or attached. */
  function Received(s: State): History
  {
    if s.client.Some? then Served(s.past, s.client.value.got) else s.past
  }

  function Count(h: History): nat { if h.Nobody? then 0 else Count(h.before) + 1 }

  function Dropped(s: State): State { State(Received(s), None, s.queue, s.sessionSwitched) }

  predicate Reaches(s: State) { s.client.Some? && s.client.value.budget > 0 }

  function AfterEmit(s: State, line: Line): State
  {
    if Reaches(s) then s.(client := Some(Written(s.client.value, Event(line))))
    else Dropped(s).(queue := Newest(s.queue + [line]))
  }

  /** How far a fresh connection that accepts `budget` writes gets through the backlog. */
  function Replayed(budget: nat, backlog: nat): nat
  {
    if budget == 0 then 0 else if budget - 1 < backlog then budget - 1 else backlog
  }

  predicate Completes(budget: nat, backlog: nat) { budget >= backlog + 2 }

  /** What a fresh connection receives before the marker or its first failed write. */
  function Sent(s: State, budget: nat): seq<Frame>
  {
    (if budget == 0 then [] else [Info(s.sessionSwitched)]) + Events(s.queue, 0, Replayed(budget, |s.queue|))
  }

  function AfterAttach(s: State, budget: nat): State
  {
    if Completes(budget, |s.queue|) then
      State(Received(s), Some(Link(budget - |s.queue| - 2, Sent(s, budget) + [ReplayEnd])), [], s.sessionSwitched)
    else
      State(Served(Received(s), Sent(s, budget)), None, s.queue[Replayed(budget, |s.queue|)..], s.sessionSwitched)
  }

  function After(s: State, e: Step): State
  {
    match e
    case Emit(line) => AfterEmit(s, line)
    case Attach(budget) => AfterAttach(s, budget)
    case Detach(conn) => if s.client.Some? && conn == Count(s.past) then Dropped(s) else s
    case SwitchSession => s.(sessionSwitched := true)
  }

  /** A run: everything that happened so far, newest last. */
  datatype Trace = Start | Then(before: Trace, step: Step)

  function Run(t: Trace): State
  {
    match t
    case Start => Init()
    case Then(before, e) => After(Run(before), e)
  }

  /** Whenever the lock is free a backlog means nobody is attached, and it is bounded. */
  lemma {:induction false} BacklogOnlyWhileDetached(t: Trace)
    ensures WellFormed(Run(t))
  {
    if t.Then? {
      BacklogOnlyWhileDetached(t.before);
    }
  }

  /** Some client has passed a switch_session command on to pi. */
  predicate Switched(t: Trace) { t.Then? && (t.step.SwitchSession? || Switched(t.before)) }

  lemma {:induction false} SwitchIsRemembered(t: Trace)
    ensures Run(t).sessionSwitched <==> Switched(t)
  {
    if t.Then? {
      SwitchIsRemembered(t.before);
    }
  }

  /** How many connections there were, the newest being the last in number. */
  function Attaches(t: Trace): nat
  {
    if t.Start? then 0 else Attaches(t.before) + if t.step.Attach? then 1 else 0
  }

  lemma {:induction false} EveryAttachIsNumbered(t: Trace)
    ensures Count(Received(Run(t))) == Attaches(t)
  {
    if t.Then? {
      EveryAttachIsNumbered(t.before);
    }
  }

  /** The end of the newest connection leaves nobody attached; that of any other, which was replaced before,
      changes nothing, so it never evicts its successor. */
  lemma {:induction false} OnlyTheNewestDetaches(t: Trace, conn: nat)
    ensures var s, after := Run(t), Run(Then(t, Detach(conn)));
            && (conn + 1 == Attaches(t) ==> after == State(Received(s), None, s.queue, s.sessionSwitched))
            && (conn + 1 != Attaches(t) ==> after == s)
  {
    EveryAttachIsNumbered(t);
  }

  /** What the connection number `k` received. */
  function GotBy(h: History, k: nat): seq<Frame>
    requires k < Count(h)
  {
    if k == Count(h.before) then h.got else GotBy(h.before, k)
  }

  predicate Extends(t: Trace, later: Trace) { later == t || (later.Then? && Extends(t, later.before)) }

  lemma StepOnlyAppends(s: State, e: Step, k: nat)
    requires k < Count(Received(s))
    ensures Count(s.past) <= Count(After(s, e).past) && Count(Received(s)) <= Count(Received(After(s, e)))
    ensures GotBy(Received(s), k) <= GotBy(Received(After(s, e)), k)
    ensures k < Count(s.past) ==> GotBy(Received(s), k) == GotBy(Received(After(s, e)), k)
  {
  }

  /** However a run goes on, what a connection received stays the beginning of what it receives, and a
      connection that is gone, having been replaced, failed or detached, stays silent. */
  lemma {:induction false} GoneConnectionsStaySilent(t: Trace, later: Trace, k: nat)
    requires Extends(t, later) && k < Count(Received(Run(t)))
    ensures Count(Run(t).past) <= Count(Run(later).past) && k < Count(Received(Run(later)))
    ensures GotBy(Received(Run(t)), k) <= GotBy(Received(Run(later)), k)
    ensures k < Count(Run(t).past) ==> GotBy(Received(Run(t)), k) == GotBy(Received(Run(later)), k)
  {
    if later != t {
      GoneConnectionsStaySilent(t, later.before, k);
      StepOnlyAppends(Run(later.before), later.step, k);
    }
  }

  /** Whoever is greeted at all is told first, and for good, whether pi's session had been switched by
      the time it attached; it switches the session only if not. */
  lemma {:induction false} GreetingTellsOfTheSwitch(t: Trace, budget: nat, later: Trace)
    requires Extends(Then(t, Attach(budget)), later)
    ensures var k := Count(Received(Run(t)));
            && k < Count(Received(Run(later)))
            && if budget == 0 then GotBy(Received(Run(later)), k) == []
               else GotBy(Received(Run(later)), k) != [] && GotBy(Received(Run(later)), k)[0] == Info(Switched(t))
  {
    SwitchIsRemembered(t);
    GoneConnectionsStaySilent(Then(t, Attach(budget)), later, Count(Received(Run(t))));
  }

  // --- What a run means ----------------------------------------------------------

  /** Everything pi printed during the run. */
  function Output(t: Trace): seq<Line>
  {
    match t
    case Start => []
    case Then(before, e) => if e.Emit? then Output(before) + [e.line] else Output(before)
  }

  /** A line arrives that nobody takes while the queue is already full. */
  predicate Overflows(s: State, e: Step)
  {
    e.Emit? && !Reaches(s) && |s.queue| == MAX_QUEUED_LINES
  }

  function OverflowCount(t: Trace): nat
  {
    match t
    case Start => 0
    case Then(before, e) => OverflowCount(before) + if Overflows(Run(before), e) then 1 else 0
  }

  datatype Stage = Refused | Interrupted | Attached

  /** The stretch `at..to` of pi's output one connection saw, replayed up to `mark`. */
  datatype Slice = Slice(stage: Stage, switched: bool, at: nat, mark: nat, to: nat)

  predicate Fits(sl: Slice, n: nat)
  {
    && sl.at <= sl.mark <= sl.to <= n
    && (sl.stage.Refused? ==> sl.at == sl.to)
    && (sl.stage.Interrupted? ==> sl.mark == sl.to)
  }

  function FramesOf(out: seq<Line>, sl: Slice): seq<Frame>
    requires Fits(sl, |out|)
  {
    match sl.stage
    case Refused => []
    case Interrupted => [Info(sl.switched)] + Events(out, sl.at, sl.to)
    case Attached => [Info(sl.switched)] + Events(out, sl.at, sl.mark) + [ReplayEnd] + Events(out, sl.mark, sl.to)
  }

  datatype Slices = NoSlice | More(before: Slices, last: Slice)

  /** Each connection received exactly its slice of `out`; slices are in order, do not overlap,
      and stop by `end`. */
  ghost predicate Sliced(h: History, sls: Slices, out: seq<Line>, end: nat)
    requires end <= |out|
  {
    match h
    case Nobody => sls.NoSlice?
    case Served(before, got) =>
      sls.More? && Fits(sls.last, end) && got == FramesOf(out, sls.last) && Sliced(before, sls.before, out, sls.last.at)
  }

  /** How many lines the slices hold. */
  function Taken(sls: Slices): int
  {
    if sls.NoSlice? then 0 else Taken(sls.before) + (sls.last.to - sls.last.at)
  }

  /**
   The history of a run: each connection saw its own slice of pi's output, the queue is
   exactly the newest lines after all slices, an attached client is up to date, and the
   lines in no slice and not queued number `lost`.
   */
  ghost predicate Explains(sls: Slices, out: seq<Line>, s: State, lost: nat)
  {
    && IsSuffix(s.queue, out)
    && Sliced(Received(s), sls, out, |out| - |s.queue|)
    && (s.client.Some? ==> sls.last.stage.Attached? && sls.last.to == |out|)
    && Taken(sls) + |s.queue| + lost == |out|
  }

  ghost predicate IsSuffix(part: seq<Line>, whole: seq<Line>)
  {
    && |part| <= |whole|
    && forall i :: 0 <= i < |part| ==> part[i] == whole[|whole| - |part| + i]
  }

  lemma {:induction false} EventsAgree(a: seq<Line>, b: seq<Line>, from: nat, to: nat)
    requires from <= to <= |a| && to <= |b| && forall i :: from <= i < to ==> a[i] == b[i]
    ensures Events(a, from, to) == Events(b, from, to)
  {
    if from < to {
      EventsAgree(a, b, from, to - 1);
    }
  }

  lemma {:induction false} EventsOfSuffix(part: seq<Line>, whole: seq<Line>, n: nat)
    requires IsSuffix(part, whole) && n <= |part|
    ensures Events(part, 0, n) == Events(whole, |whole| - |part|, |whole| - |part| + n)
  {
    if n > 0 {
      EventsOfSuffix(part, whole, n - 1);
    }
  }

  lemma FramesOfExtends(out: seq<Line>, line: Line, sl: Slice)
    requires Fits(sl, |out|)
    ensures FramesOf(out + [line], sl) == FramesOf(out, sl)
  {
    EventsAgree(out + [line], out, sl.at, sl.mark);
    EventsAgree(out + [line], out, sl.mark, sl.to);
    EventsAgree(out + [line], out, sl.at, sl.to);
  }

  lemma FramesOfGrows(out: seq<Line>, line: Line, sl: Slice)
    requires sl.stage.Attached? && Fits(sl, |out|) && sl.to == |out|
    ensures FramesOf(out + [line], sl.(to := |out| + 1)) == FramesOf(out, sl) + [Event(line)]
  {
    EventsAgree(out + [line], out, sl.at, sl.mark);
    EventsAgree(out + [line], out, sl.mark, sl.to);
  }

  lemma {:induction false} SlicedExtends(h: History, sls: Slices, out: seq<Line>, line: Line, end: nat, end': nat)
    requires end <= |out| && Sliced(h, sls, out, end)
    requires end <= end' <= |out| + 1
    ensures Sliced(h, sls, out + [line], end')
  {
    if h.Served? {
      FramesOfExtends(out, line, sls.last);
      SlicedExtends(h.before, sls.before, out, line, sls.last.at, sls.last.at);
    }
  }

  lemma ReachedExplained(sls: Slices, out: seq<Line>, s: State, lost: nat, line: Line)
    requires WellFormed(s) && Explains(sls, out, s, lost) && Reaches(s)
    ensures Explains(More(sls.before, sls.last.(to := |out| + 1)), out + [line], AfterEmit(s, line), lost)
  {
    SlicedExtends(s.past, sls.before, out, line, sls.last.at, sls.last.at);
    FramesOfGrows(out, line, sls.last);
  }

  lemma QueuedExplained(sls: Slices, out: seq<Line>, s: State, lost: nat, line: Line)
    requires WellFormed(s) && Explains(sls, out, s, lost) && !Reaches(s)
    ensures Explains(sls, out + [line], AfterEmit(s, line), lost + if Overflows(s, Emit(line)) then 1 else 0)
  {
    QueuedQueue(out, s, line);
    NoOneSawIt(sls, out, s, lost, line, AfterEmit(s, line), if Overflows(s, Emit(line)) then 1 else 0);
  }

  lemma QueuedQueue(out: seq<Line>, s: State, line: Line)
    requires WellFormed(s) && IsSuffix(s.queue, out) && !Reaches(s)
    ensures var t := AfterEmit(s, line);
            && t.client.None? && Received(t) == Received(s) && IsSuffix(t.queue, out + [line])
            && |t.queue| + (if Overflows(s, Emit(line)) then 1 else 0) == |s.queue| + 1
  {
  }

  lemma NoOneSawIt(sls: Slices, out: seq<Line>, s: State, lost: nat, line: Line, t: State, dropped: nat)
    requires Explains(sls, out, s, lost) && t.client.None? && Received(t) == Received(s)
    requires IsSuffix(t.queue, out + [line]) && |t.queue| + dropped == |s.queue| + 1
    ensures Explains(sls, out + [line], t, lost + dropped)
  {
    SlicedExtends(Received(s), sls, out, line, |out| - |s.queue|, |out| + 1 - |t.queue|);
  }

  lemma AttachedFrames(s: State, out: seq<Line>, budget: nat) returns (sl: Slice)
    requires IsSuffix(s.queue, out)
    ensures Fits(sl, |out|) && sl.at == |out| - |s.queue| && sl.switched == s.sessionSwitched
    ensures Received(AfterAttach(s, budget)) == Served(Received(s), FramesOf(out, sl))
    ensures IsSuffix(AfterAttach(s, budget).queue, out) && sl.to == |out| - |AfterAttach(s, budget).queue|
    ensures AfterAttach(s, budget).client.Some? ==> sl.stage.Attached? && sl.to == |out|
  {
    var at, k := |out| - |s.queue|, Replayed(budget, |s.queue|);
    EventsOfSuffix(s.queue, out, k);
    var stage := if Completes(budget, |s.queue|) then Attached else if budget == 0 then Refused else Interrupted;
    sl := Slice(stage, s.sessionSwitched, at, at + k, at + k);
    var got := Sent(s, budget) + if stage.Attached? then [ReplayEnd] else [];
    assert FramesOf(out, sl) == got;
  }

  lemma NewConnectionExplained(sls: Slices, out: seq<Line>, s: State, lost: nat, t: State, sl: Slice)
    requires Explains(sls, out, s, lost)
    requires Fits(sl, |out|) && sl.at == |out| - |s.queue|
    requires Received(t) == Served(Received(s), FramesOf(out, sl))
    requires IsSuffix(t.queue, out) && sl.to == |out| - |t.queue|
    requires t.client.Some? ==> sl.stage.Attached? && sl.to == |out|
    ensures Explains(More(sls, sl), out, t, lost)
  {
  }

  /** Each slice says what held when its connection attached. */
  predicate GreetedAs(sls: Slices, t: Trace)
  {
    match t
    case Start => sls.NoSlice?
    case Then(before, e) =>
      if e.Attach? then sls.More? && (sls.last.switched <==> Switched(before)) && GreetedAs(sls.before, before)
      else GreetedAs(sls, before)
  }

  /** Slices that differ at most in how far the last one goes. */
  predicate SameGreetings(a: Slices, b: Slices)
  {
    a == b || (a.More? && b.More? && a.before == b.before && a.last.switched == b.last.switched)
  }

  lemma {:induction false} GreetingsStay(a: Slices, b: Slices, t: Trace)
    requires SameGreetings(a, b) && GreetedAs(b, t)
    ensures GreetedAs(a, t)
  {
    if t.Then? && !t.step.Attach? {
      GreetingsStay(a, b, t.before);
    }
  }

  /** One step keeps a history; it loses a line exactly when it overflows. */
  lemma {:induction false} StepExplained(sls: Slices, out: seq<Line>, s: State, lost: nat, e: Step) returns (r: Slices)
    requires WellFormed(s) && Explains(sls, out, s, lost)
    ensures Explains(r, if e.Emit? then out + [e.line] else out, After(s, e), lost + if Overflows(s, e) then 1 else 0)
    ensures if e.Attach? then r.More? && r.before == sls && r.last.switched == s.sessionSwitched else SameGreetings(r, sls)
  {
    r := sls;
    match e
    case Emit(line) =>
      if Reaches(s) {
        ReachedExplained(sls, out, s, lost, line);
        r := More(sls.before, sls.last.(to := |out| + 1));
      } else {
        QueuedExplained(sls, out, s, lost, line);
      }
    case Attach(budget) =>
      var sl := AttachedFrames(s, out, budget);
      NewConnectionExplained(sls, out, s, lost, After(s, e), sl);
      r := More(sls, sl);
    case Detach(_) =>
    case SwitchSession =>
  }

  /** Every run has a history, its lost lines are exactly its overflows, and each connection was greeted
      with what held when it attached. */
  lemma {:induction false} HistoryOf(t: Trace) returns (sls: Slices)
    ensures Explains(sls, Output(t), Run(t), OverflowCount(t)) && GreetedAs(sls, t)
  {
    if t.Start? {
      return NoSlice;
    }
    var before := HistoryOf(t.before);
    BacklogOnlyWhileDetached(t.before);
    SwitchIsRemembered(t.before);
    sls := StepExplained(before, Output(t.before), Run(t.before), OverflowCount(t.before), t.step);
    if !t.step.Attach? {
      GreetingsStay(sls, before, t.before);
    }
  }

  // --- Delivery --------------------------------------------------------------------

  /** The lines among the first `n` frames. */
  function LinesOf(frames: seq<Frame>, n: nat): seq<Line>
    requires n <= |frames|
  {
    if n == 0 then []
    else if frames[n - 1].Event? then LinesOf(frames, n - 1) + [frames[n - 1].line]
    else LinesOf(frames, n - 1)
  }

  /** Lines written successfully, over all connections, in order. */
  function Delivered(h: History): seq<Line>
  {
    if h.Nobody? then [] else Delivered(h.before) + LinesOf(h.got, |h.got|)
  }

  lemma {:induction false} LinesOfAgree(a: seq<Frame>, b: seq<Frame>, n: nat)
    requires n <= |a| && n <= |b| && forall i :: 0 <= i < n ==> a[i] == b[i]
    ensures LinesOf(a, n) == LinesOf(b, n)
  {
    if n > 0 {
      LinesOfAgree(a, b, n - 1);
    }
  }

  lemma {:induction false} LinesOfEvents(head: seq<Frame>, out: seq<Line>, from: nat, to: nat)
    requires from <= to <= |out|
    ensures LinesOf(head + Events(out, from, to), |head| + to - from) == LinesOf(head, |head|) + out[from..to]
  {
    var frames := head + Events(out, from, to);
    if from == to {
      assert frames == head;
    } else {
      LinesOfEvents(head, out, from, to - 1);
      LinesOfAgree(frames, head + Events(out, from, to - 1), |head| + to - 1 - from);
      assert out[from..to] == out[from..to - 1] + [out[to - 1]];
    }
  }

  lemma LinesOfLive(head: seq<Frame>, out: seq<Line>, from: nat, mark: nat, to: nat)
    requires from <= mark <= to <= |out| && LinesOf(head, |head|) == out[from..mark]
    ensures var frames := head + [ReplayEnd] + Events(out, mark, to);
            LinesOf(frames, |frames|) == out[from..to]
  {
    LinesOfAgree(head + [ReplayEnd], head, |head|);
    LinesOfEvents(head + [ReplayEnd], out, mark, to);
    assert out[from..to] == out[from..mark] + out[mark..to];
  }

  lemma LinesOfSlice(out: seq<Line>, sl: Slice)
    requires Fits(sl, |out|)
    ensures LinesOf(FramesOf(out, sl), |FramesOf(out, sl)|) == out[sl.at..sl.to]
  {
    match sl.stage
    case Refused =>
    case Interrupted => LinesOfEvents([Info(sl.switched)], out, sl.at, sl.to);
    case Attached =>
      LinesOfEvents([Info(sl.switched)], out, sl.at, sl.mark);
      LinesOfLive([Info(sl.switched)] + Events(out, sl.at, sl.mark), out, sl.at, sl.mark, sl.to);
  }

  /** `idx` places `part` inside `whole[..end]` in order, each position used at most once. */
  ghost predicate Embeds(idx: seq<nat>, part: seq<Line>, whole: seq<Line>, end: nat)
  {
    && |idx| == |part|
    && (forall i, j :: 0 <= i < j < |idx| ==> idx[i] < idx[j])
    && forall i :: 0 <= i < |idx| ==> idx[i] < end && idx[i] < |whole| && part[i] == whole[idx[i]]
  }

  lemma EmbedsAppend(idx: seq<nat>, part: seq<Line>, whole: seq<Line>, at: nat, to: nat, more: seq<Line>)
    returns (r: seq<nat>)
    requires at <= to <= |whole| && Embeds(idx, part, whole, at)
    requires |more| == to - at && forall i :: 0 <= i < |more| ==> more[i] == whole[at + i]
    ensures Embeds(r, part + more, whole, to)
  {
    r := idx + seq(to - at, i requires 0 <= i < to - at => at + i);
  }

  lemma {:induction false} DeliveredEmbeds(h: History, sls: Slices, out: seq<Line>, end: nat)
    returns (idx: seq<nat>)
    requires end <= |out| && Sliced(h, sls, out, end)
    ensures Embeds(idx, Delivered(h), out, end)
    ensures |Delivered(h)| == Taken(sls)
  {
    if h.Nobody? {
      return [];
    }
    var sl := sls.last;
    idx := DeliveredEmbeds(h.before, sls.before, out, sl.at);
    LinesOfSlice(out, sl);
    idx := EmbedsAppend(idx, Delivered(h.before), out, sl.at, sl.to, out[sl.at..sl.to]);
  }

  /** The lines written, in order, over all connections. */
  function AllDelivered(t: Trace): seq<Line> { Delivered(Received(Run(t))) }

  /**
   Whatever the pattern of attaches, failed writes and detaches, the lines written
   followed by the queue are pi's output with some lines left out: nothing is
   duplicated or reordered, and exactly the overflowing steps cost a line.
   */
  lemma {:induction false} NothingDuplicatedOrReordered(t: Trace) returns (idx: seq<nat>)
    ensures Embeds(idx, AllDelivered(t) + Run(t).queue, Output(t), |Output(t)|)
    ensures |AllDelivered(t)| + |Run(t).queue| + OverflowCount(t) == |Output(t)|
  {
    var sls := HistoryOf(t);
    var q, out := Run(t).queue, Output(t);
    var cut := |out| - |q|;
    idx := DeliveredEmbeds(Received(Run(t)), sls, out, cut);
    idx := EmbedsAppend(idx, AllDelivered(t), out, cut, |out|, q);
  }

  lemma {:induction false} IndexAtLeast(idx: seq<nat>, i: nat)
    requires i < |idx| && forall i, j :: 0 <= i < j < |idx| ==> idx[i] < idx[j]
    ensures idx[i] >= i
  {
    if i > 0 {
      IndexAtLeast(idx, i - 1);
    }
  }

  lemma {:induction false} IndexAtMost(idx: seq<nat>, i: nat)
    requires i < |idx| && forall i, j :: 0 <= i < j < |idx| ==> idx[i] < idx[j]
    requires idx[|idx| - 1] < |idx|
    ensures idx[i] <= i
    decreases |idx| - i
  {
    if i + 1 < |idx| {
      IndexAtMost(idx, i + 1);
    }
  }

  lemma FullEmbeddingIsIdentity(idx: seq<nat>, part: seq<Line>, whole: seq<Line>)
    requires Embeds(idx, part, whole, |whole|) && |part| == |whole|
    ensures part == whole
  {
    forall i | 0 <= i < |part|
      ensures part[i] == whole[i]
    {
      IndexAtLeast(idx, i);
      IndexAtMost(idx, i);
    }
  }

  /** Lossless exactly when no line ever met a full queue with nobody listening. */
  lemma {:induction false} LosslessIffNoOverflow(t: Trace)
    ensures AllDelivered(t) + Run(t).queue == Output(t) <==> OverflowCount(t) == 0
  {
    var idx := NothingDuplicatedOrReordered(t);
    if OverflowCount(t) == 0 {
      FullEmbeddingIsIdentity(idx, AllDelivered(t) + Run(t).queue, Output(t));
    }
  }

  predicate Got(h: History, frames: seq<Frame>)
  {
    h.Served? && (h.got == frames || Got(h.before, frames))
  }

  lemma {:induction false} SliceOfConnection(h: History, sls: Slices, out: seq<Line>, end: nat, frames: seq<Frame>)
    returns (sl: Slice)
    requires end <= |out| && Sliced(h, sls, out, end) && Got(h, frames)
    ensures Fits(sl, |out|) && frames == FramesOf(out, sl)
  {
    if h.got == frames {
      sl := sls.last;
    } else {
      sl := SliceOfConnection(h.before, sls.before, out, sls.last.at, frames);
    }
  }

  /** Any one connection receives a contiguous stretch of pi's output behind the greeting,
      with at most one marker in it. */
  lemma {:induction false} ConnectionSeesOneStretch(t: Trace, frames: seq<Frame>) returns (sl: Slice)
    requires Got(Received(Run(t)), frames)
    ensures Fits(sl, |Output(t)|) && frames == FramesOf(Output(t), sl)
  {
    var sls := HistoryOf(t);
    sl := SliceOfConnection(Received(Run(t)), sls, Output(t), |Output(t)| - |Run(t).queue|, frames);
  }

  /** Nothing after `t` but pi's output, session switches, and connections ending that were replaced before. */
  predicate Undisturbed(t: Trace, later: Trace)
  {
    later == t || (later.Then? && Undisturbed(t, later.before) && Harmless(later.before, later.step))
  }

  predicate Harmless(t: Trace, e: Step)
  {
    e.Emit? || e.SwitchSession? || (e.Detach? && e.conn + 1 != Attaches(t))
  }

  lemma OneMoreEvent(replay: seq<Frame>, out: seq<Line>, line: Line, from: nat)
    requires from <= |out|
    ensures replay + Events(out + [line], from, |out| + 1) == replay + Events(out, from, |out|) + [Event(line)]
  {
    EventsAgree(out + [line], out, from, |out|);
    assert Events(out + [line], from, |out| + 1) == Events(out, from, |out|) + [Event(line)];
  }

  /** An attached connection that accepts enough receives just what pi prints. */
  lemma {:induction false} ConnectionFollows(start: Trace, later: Trace, link: Link)
    requires Undisturbed(start, later) && Run(start).client == Some(link)
    requires link.budget >= |Output(later)| - |Output(start)|
    ensures |Output(later)| >= |Output(start)|
    ensures Run(later).client ==
            Some(Link(link.budget - (|Output(later)| - |Output(start)|),
                      link.got + Events(Output(later), |Output(start)|, |Output(later)|)))
    decreases later
  {
    if later == start {
      assert link.got + [] == link.got;
    } else {
      OutputGrows(start, later.before);
      ConnectionFollows(start, later.before, link);
      EveryAttachIsNumbered(later.before);
      if later.step.Emit? {
        OneMoreEvent(link.got, Output(later.before), later.step.line, |Output(start)|);
      }
    }
  }

  lemma AttachGreets(s: State, budget: nat)
    requires budget >= |s.queue| + 2
    ensures After(s, Attach(budget)).client ==
              Some(Link(budget - |s.queue| - 2, [Info(s.sessionSwitched)] + Events(s.queue, 0, |s.queue|) + [ReplayEnd]))
  {
  }

  lemma Greeted(t: Trace, budget: nat) returns (link: Link)
    requires budget >= |Run(t).queue| + 2
    ensures link == Link(budget - |Run(t).queue| - 2, [Info(Switched(t))] + Events(Run(t).queue, 0, |Run(t).queue|) + [ReplayEnd])
    ensures Run(Then(t, Attach(budget))).client == Some(link) && Output(Then(t, Attach(budget))) == Output(t)
  {
    SwitchIsRemembered(t);
    AttachGreets(Run(t), budget);
    link := Run(Then(t, Attach(budget))).client.value;
  }

  /** Attaching writes the greeting, the queue and the marker as far as the connection takes them: the lines it did
      not take stay queued, and with one frame missing nobody is attached. */
  lemma AttachWritesWhatItCan(t: Trace, budget: nat)
    ensures var s, u := Run(t), Run(Then(t, Attach(budget)));
            var lines := if budget == 0 then 0 else Min(budget - 1, |s.queue|);
            && (u.client.Some? <==> budget >= 1 + |s.queue| + 1)
            && (u.client.Some? ==> u.queue == [] && |u.client.value.got| == |s.queue| + 2)
            && (u.client.None? ==> u.past.Served? && |u.past.got| == budget && u.queue == s.queue[lines..])
  {
  }

  /** The marker falls exactly between what was queued at the attach and what pi printed after it. */
  lemma MarkerSplitsAtAttach(t: Trace, budget: nat, later: Trace)
    requires Undisturbed(Then(t, Attach(budget)), later)
    requires budget >= |Run(t).queue| + 2 + |Output(later)| - |Output(t)|
    ensures |Output(later)| >= |Output(t)|
    ensures Run(later).client ==
            Some(Link(budget - |Run(t).queue| - 2 - (|Output(later)| - |Output(t)|),
                      [Info(Switched(t))] + Events(Run(t).queue, 0, |Run(t).queue|) + [ReplayEnd] +
                      Events(Output(later), |Output(t)|, |Output(later)|)))
  {
    var start := Then(t, Attach(budget));
    OutputGrows(start, later);
    var link := Greeted(t, budget);
    ConnectionFollows(start, later, link);
  }

  lemma {:induction false} OutputGrows(t: Trace, later: Trace)
    requires Undisturbed(t, later)
    ensures |Output(later)| >= |Output(t)|
    decreases later
  {
    if later != t {
      OutputGrows(t, later.before);
    }
  }

  // --- The process ---------------------------------------------------------------

  class Conn {
    var open: bool
    var budget: nat
    var got: seq<Frame>

    function Value(): Link
      reads this
    {
      Link(if open then budget else 0, got)
    }

    constructor (budget: nat)
      ensures open && Value() == Link(budget, [])
    {
      open, this.budget, got := true, budget, [];
    }

    method Write(f: Frame) returns (ok: bool)
      modifies this
      ensures ok == (old(Value()).budget > 0) && open == old(open)
      ensures Value() == if ok then Written(old(Value()), f) else old(Value())
    {
      ok := open && budget > 0;
      if ok {
        budget, got := budget - 1, got + [f];
      }
    }

    method Close()
      modifies this
      ensures !open && got == old(got)
    {
      open := false;
    }
  }

  class WorkerHolder {
    var client: Conn?
    var queue: seq<Line>
    var sessionSwitched: bool
    ghost var past: History  // what each connection that is gone had received

    ghost predicate Valid()
      reads this
    {
      |queue| <= MAX_QUEUED_LINES && (client != null ==> queue == [])
    }

    ghost function Value(): State
      reads this, client
    {
      State(past, if client == null then None else Some(client.Value()), queue, sessionSwitched)
    }

    constructor ()
      ensures Valid() && Value() == Init() && client == null
    {
      client, queue, sessionSwitched, past := null, [], false, Nobody;
    }

    /** Closes the attached connection, if any. */
    method Evict()
      modifies this`client, this`past, client
      ensures client == null && Value() == old(Dropped(Value()))
    {
      if client != null {
        client.Close();
        past := Served(past, client.got);
        client := null;
      }
    }

    method Deliver(line: Line)
      requires Valid()
      modifies this`client, this`queue, this`past, client
      ensures Valid() && client in {null, old(client)}
      ensures Value() == old(AfterEmit(Value(), line))
    {
      if client != null {
        var ok := client.Write(Event(line));
        if ok {
          return;
        }
      }
      Evict();
      queue := queue + [line];
      if |queue| > MAX_QUEUED_LINES {
        queue := queue[|queue| - MAX_QUEUED_LINES..];
      }
    }

    method Attach(conn: Conn)
      requires Valid() && conn != client && conn.open && conn.got == []
      modifies this`client, this`queue, this`past, client, conn
      ensures Valid() && client in {null, conn}
      ensures Value() == old(AfterAttach(Value(), conn.budget))
    {
      Evict();
      ghost var before := Value();
      var ok := Greet(conn);
      if ok {
        client := conn;
      } else {
        conn.Close();
        past := Served(past, conn.got);
      }
    }

    /** Sends the greeting, the backlog and the marker; stops at the first failed write. */
    method Greet(conn: Conn) returns (ok: bool)
      requires conn.open && conn.got == []
      modifies this`queue, conn
      ensures ok == Completes(old(conn.budget), |old(queue)|)
      ensures queue == old(queue)[Replayed(old(conn.budget), |old(queue)|)..] && conn.open
      ensures var sent := old(Sent(State(Nobody, None, queue, sessionSwitched), conn.budget));
              conn.got == if ok then sent + [ReplayEnd] else sent
      ensures ok ==> conn.budget == old(conn.budget) - |old(queue)| - 2
    {
      ok := conn.Write(Info(sessionSwitched));
      if ok {
        ok := Flush(conn);
      }
      if ok {
        ok := conn.Write(ReplayEnd);
      }
    }

    /** Replays the backlog until it is empty or a write fails. */
    method Flush(conn: Conn) returns (ok: bool)
      requires conn.open
      modifies this`queue, conn
      ensures var k := if old(conn.budget) < |old(queue)| then old(conn.budget) else |old(queue)|;
              && ok == (k == |old(queue)|)
              && conn.Value() == Link(old(conn.budget) - k, old(conn.got) + Events(old(queue), 0, k))
              && queue == old(queue)[k..]
              && conn.open
    {
      ghost var n := 0;
      ok := true;
      while ok && |queue| > 0
        invariant n <= |old(queue)| && queue == old(queue)[n..]
        invariant conn.open && conn.budget == old(conn.budget) - n
        invariant conn.got == old(conn.got) + Events(old(queue), 0, n)
        invariant !ok ==> conn.budget == 0 && n < |old(queue)|
        decreases |queue|, ok
      {
        ok := conn.Write(Event(queue[0]));
        if ok {
          queue := queue[1..];
          n := n + 1;
        }
      }
    }

    /** The reader of `conn` hit end of stream; a stale connection must not evict its successor. */
    method Detach(conn: Conn)
      modifies this`client, this`past, conn
      ensures conn.got == old(conn.got) && !conn.open
      ensures client == if old(client) == conn then null else old(client)
      ensures Value() == if old(client) == conn then old(Dropped(Value())) else old(Value())
    {
      if client == conn {
        past := Served(past, conn.got);
        client := null;
      }
      conn.Close();
    }

    /** The reader saw a switch_session command pass through to pi. */
    method NoteSwitchSession()
      modifies this`sessionSwitched
      ensures sessionSwitched && Value() == old(After(Value(), SwitchSession))
    {
      sessionSwitched := true;
    }
  }
}
