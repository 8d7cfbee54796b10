/**
 Background tasks and shutdown (startTask and Shutdown in internal/server/server.go), as interleaved
 steps: the database must outlive every task that was accepted.
 */
module Tasks {

  /** Where the one Shutdown is. */
  datatype Phase = Open | Waiting | Closed

  /** `running` is the wait group's count; `accepted` and `refused` count calls of startTask. */
  datatype State = State(stopping: bool, cancelled: bool, running: nat, phase: Phase, accepted: nat, refused: nat, finished: nat)

  const INITIAL := State(false, false, 0, Open, 0, 0, 0)

  datatype Step =
    | StartTask      // the critical section of startTask, with its wait group Add
    | FinishTask     // a task returns: the wait group Done
    | BeginShutdown  // the critical section of Shutdown, run once
    | CloseDatabase  // Shutdown goes on once the wait group's count is zero

  predicate Enabled(s: State, step: Step)
  {
    match step
    case StartTask => true
    case FinishTask => s.running > 0
    case BeginShutdown => s.phase == Open
    case CloseDatabase => s.phase == Waiting && s.running == 0
  }

  function Next(s: State, step: Step): State
    requires Enabled(s, step)
  {
    match step
    case StartTask =>
      if s.stopping then s.(refused := s.refused + 1)
      else s.(running := s.running + 1, accepted := s.accepted + 1)
    case FinishTask => s.(running := s.running - 1, finished := s.finished + 1)
    case BeginShutdown => s.(stopping := true, cancelled := true, phase := Waiting)
    case CloseDatabase => s.(phase := Closed)
  }

  /** Steps that are not possible change nothing. */
  function Stepped(s: State, step: Step): State { if Enabled(s, step) then Next(s, step) else s }

  datatype Run = Start | Then(before: Run, step: Step)

  function After(run: Run): State { if run.Start? then INITIAL else Stepped(After(run.before), run.step) }

  predicate Sound(s: State)
  {
    && (s.stopping <==> s.phase != Open)
    && (s.cancelled <==> s.stopping)
    && s.accepted == s.finished + s.running
    && (s.phase == Closed ==> s.running == 0)
  }

  lemma StaysSound(s: State, step: Step)
    requires Sound(s)
    ensures Sound(Stepped(s, step))
  {
  }

  lemma {:induction false} EveryRunIsSound(run: Run)
    ensures Sound(After(run))
  {
    if run.Then? {
      EveryRunIsSound(run.before);
      StaysSound(After(run.before), run.step);
    }
  }

  predicate Stopped(run: Run) { run.Then? && (run.step.BeginShutdown? || Stopped(run.before)) }

  /** The calls of startTask before Shutdown began, and those after. */
  function StartedBefore(run: Run): nat
  {
    if run.Start? then 0 else StartedBefore(run.before) + if run.step.StartTask? && !Stopped(run.before) then 1 else 0
  }

  function StartedAfter(run: Run): nat
  {
    if run.Start? then 0 else StartedAfter(run.before) + if run.step.StartTask? && Stopped(run.before) then 1 else 0
  }

  lemma AcceptingStep(s: State, step: Step)
    requires s.phase == Open <==> !s.stopping
    ensures var t := Stepped(s, step);
            && (t.stopping <==> s.stopping || step.BeginShutdown?) && (t.phase == Open <==> !t.stopping)
            && t.accepted == s.accepted + (if step.StartTask? && !s.stopping then 1 else 0)
            && t.refused == s.refused + (if step.StartTask? && s.stopping then 1 else 0)
  {
  }

  /** Exactly the calls before Shutdown began are accepted; the others are refused. */
  lemma {:induction false} AcceptedIffBefore(run: Run)
    ensures var s := After(run);
            && (s.stopping <==> Stopped(run)) && (s.phase == Open <==> !Stopped(run))
            && s.accepted == StartedBefore(run) && s.refused == StartedAfter(run)
  {
    if run.Then? {
      AcceptedIffBefore(run.before);
      AcceptingStep(After(run.before), run.step);
    }
  }

  /** So many tasks return. */
  function Finishes(run: Run, n: nat): Run { if n == 0 then run else Then(Finishes(run, n - 1), FinishTask) }

  lemma {:induction false} FinishesCount(run: Run, n: nat)
    requires n <= After(run).running
    ensures After(Finishes(run, n)) == After(run).(running := After(run).running - n, finished := After(run).finished + n)
  {
    if n > 0 {
      FinishesCount(run, n - 1);
    }
  }

  /** From any point Shutdown comes to its end as soon as all that was accepted has returned, and not before. */
  lemma {:induction false} ShutdownCompletes(run: Run, n: nat)
    requires n <= After(run).running && After(run).phase != Closed
    ensures var last := Then(Finishes(Then(run, BeginShutdown), n), CloseDatabase);
            After(last).phase == Closed <==> n == After(run).running
  {
    var begun := Then(run, BeginShutdown);
    BeginsWaiting(run);
    FinishesCount(begun, n);
    ClosesIff(Finishes(begun, n));
  }

  lemma {:induction false} BeginsWaiting(run: Run)
    requires After(run).phase != Closed
    ensures var s := After(Then(run, BeginShutdown)); s.phase == Waiting && s.running == After(run).running
  {
  }

  lemma {:induction false} ClosesIff(run: Run)
    requires After(run).phase == Waiting
    ensures After(Then(run, CloseDatabase)).phase == Closed <==> After(run).running == 0
  {
  }

  predicate Extends(later: Run, earlier: Run) { later == earlier || (later.Then? && Extends(later.before, earlier)) }

  /** What a step leaves of a shutdown that has begun: no task is accepted any more. */
  lemma StoppingStep(s: State, step: Step)
    requires Sound(s) && s.stopping
    ensures var t := Stepped(s, step);
            && t.stopping && t.accepted == s.accepted && (s.phase == Closed ==> t == s.(refused := t.refused))
            && t.running == s.running - (t.finished - s.finished)
  {
  }

  /** After Shutdown has begun no task is accepted, the running ones only get fewer, and when none is
      left nothing but closing the database is to be waited for. */
  lemma {:induction false} ShutdownWaitsForAcceptedTasks(earlier: Run, later: Run)
    requires Extends(later, earlier) && After(earlier).stopping
    ensures After(later).stopping && After(later).accepted == After(earlier).accepted
    ensures After(later).running == After(earlier).running - (After(later).finished - After(earlier).finished)
    ensures After(later).running == 0 ==> After(later).phase == Closed || Enabled(After(later), CloseDatabase)
  {
    EveryRunIsSound(later);
    if later != earlier {
      ShutdownWaitsForAcceptedTasks(earlier, later.before);
      EveryRunIsSound(later.before);
      StoppingStep(After(later.before), later.step);
    }
  }

  /** Once the database is closed every task ever accepted has finished, and none is accepted later. */
  lemma {:induction false} NoTaskOutlivesTheDatabase(earlier: Run, later: Run)
    requires Extends(later, earlier) && After(earlier).phase == Closed
    ensures After(later).phase == Closed && After(later).running == 0
    ensures After(later).accepted == After(later).finished == After(earlier).accepted
  {
    EveryRunIsSound(earlier);
    if later != earlier {
      NoTaskOutlivesTheDatabase(earlier, later.before);
      EveryRunIsSound(later.before);
      StoppingStep(After(later.before), later.step);
    }
  }
}
