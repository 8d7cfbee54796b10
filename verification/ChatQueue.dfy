/**
 The durable per-session chat queue (internal/chatqueue/chatqueue.go): two tables, rows keyed by
 session and position, and per-session settings that hold the next position. Time is an input.
 */
module ChatQueue {
  import opened Prelude

  datatype NewItem = NewItem(message: string, displayText: string, images: seq<string>, attachments: seq<string>,
                             notBefore: Option<int>)

  datatype Item = Item(position: nat, message: string, displayText: string, createdAt: int, images: seq<string>,
                       attachments: seq<string>, notBefore: Option<int>)
  {
    predicate Due(now: int) { notBefore.None? || notBefore.value <= now }

    /** The item apart from its schedule, which may be changed while it waits. */
    function Core(): Item { this.(notBefore := None) }
  }

  datatype Settings = Settings(paused: bool, next: nat)

  /** What the tables hold for one session. */
  datatype Queue = Queue(rows: seq<Item>, settings: Option<Settings>)
  {
    predicate Paused() { settings.Some? && settings.value.paused }

    function NextPosition(): nat { if settings.Some? then settings.value.next else 1 }
  }

  const EMPTY := Queue([], None)

  datatype Error = SessionRequired | MessageRequired

  // --- Statements on the rows of one session ------------------------------------------

  /** Of the first `n` rows, the due one with the lowest position. */
  function Head(rows: seq<Item>, n: nat, now: int): Option<Item>
    requires n <= |rows|
  {
    if n == 0 then None
    else
      var best, r := Head(rows, n - 1, now), rows[n - 1];
      if r.Due(now) && (best.None? || r.position < best.value.position) then Some(r) else best
  }

  function Find(rows: seq<Item>, n: nat, position: nat): Option<Item>
    requires n <= |rows|
  {
    if n == 0 then None
    else if rows[n - 1].position == position then Some(rows[n - 1])
    else Find(rows, n - 1, position)
  }

  function Without(rows: seq<Item>, n: nat, position: nat): seq<Item>
    requires n <= |rows|
  {
    if n == 0 then []
    else if rows[n - 1].position == position then Without(rows, n - 1, position)
    else Without(rows, n - 1, position) + [rows[n - 1]]
  }

  function Rescheduled(rows: seq<Item>, n: nat, position: nat, notBefore: Option<int>): (r: seq<Item>)
    requires n <= |rows|
    ensures |r| == n
  {
    if n == 0 then []
    else
      var row := rows[n - 1];
      Rescheduled(rows, n - 1, position, notBefore) +
        [if row.position == position then row.(notBefore := notBefore) else row]
  }

  // --- Operations on one session ---------------------------------------------------------

  datatype Operation =
    | Add(item: NewItem, now: int)
    | Take(position: nat)
    | Remove(position: nat)
    | SetNotBefore(position: nat, notBefore: Option<int>)
    | PopHead(now: int)
    | SetPaused(paused: bool)
    | Clear

  predicate Addable(item: NewItem) { item.message != "" || item.images != [] }

  function RowFor(item: NewItem, position: nat, now: int): Item
  {
    Item(position, item.message, if item.displayText == "" then item.message else item.displayText, now,
         item.images, item.attachments, item.notBefore)
  }

  /** The item an operation hands out or deletes, if any. */
  function Leaving(q: Queue, op: Operation): Option<Item>
  {
    match op
    case Take(p) => Find(q.rows, |q.rows|, p)
    case Remove(p) => Find(q.rows, |q.rows|, p)
    case PopHead(now) => Head(q.rows, |q.rows|, now)
    case _ => None
  }

  function Next(q: Queue, op: Operation): Queue
  {
    match op
    case Add(item, now) =>
      if !Addable(item) then q
      else Queue(q.rows + [RowFor(item, q.NextPosition(), now)], Some(Settings(q.Paused(), q.NextPosition() + 1)))
    case Take(p) => q.(rows := Without(q.rows, |q.rows|, p))
    case Remove(p) => q.(rows := Without(q.rows, |q.rows|, p))
    case SetNotBefore(p, t) => q.(rows := Rescheduled(q.rows, |q.rows|, p, t))
    case PopHead(now) =>
      var head := Head(q.rows, |q.rows|, now);
      if head.None? then q else q.(rows := Without(q.rows, |q.rows|, head.value.position))
    case SetPaused(paused) => q.(settings := Some(Settings(paused, q.NextPosition())))
    case Clear => EMPTY
  }

  /** Rows stand in the order their positions were issued, below the next one. */
  predicate Ordered(q: Queue)
  {
    && q.NextPosition() > 0
    && (forall i, j :: 0 <= i < j < |q.rows| ==> q.rows[i].position < q.rows[j].position)
    && (forall i :: 0 <= i < |q.rows| ==> 0 < q.rows[i].position < q.NextPosition())
  }

  predicate Rising(rows: seq<Item>) { forall i, j :: 0 <= i < j < |rows| ==> rows[i].position < rows[j].position }

  lemma {:induction false} WithoutIsPart(rows: seq<Item>, n: nat, position: nat)
    requires n <= |rows| && Rising(rows)
    ensures var r := Without(rows, n, position);
            && Rising(r)
            && (forall i :: 0 <= i < |r| ==> r[i] in rows[..n] && r[i].position != position)
            && (forall i :: 0 <= i < n && rows[i].position != position ==> rows[i] in r)
  {
    if n > 0 {
      WithoutIsPart(rows, n - 1, position);
      OneMoreKept(rows, n, position, Without(rows, n - 1, position), Without(rows, n, position));
    }
  }

  lemma OneMoreKept(rows: seq<Item>, n: nat, position: nat, before: seq<Item>, r: seq<Item>)
    requires 0 < n <= |rows| && Rising(rows) && Rising(before)
    requires r == if rows[n - 1].position == position then before else before + [rows[n - 1]]
    requires forall i :: 0 <= i < |before| ==> before[i] in rows[..n - 1] && before[i].position != position
    requires forall i :: 0 <= i < n - 1 && rows[i].position != position ==> rows[i] in before
    ensures Rising(r)
    ensures forall i :: 0 <= i < |r| ==> r[i] in rows[..n] && r[i].position != position
    ensures forall i :: 0 <= i < n && rows[i].position != position ==> rows[i] in r
  {
    assert rows[..n] == rows[..n - 1] + [rows[n - 1]];
  }

  lemma {:induction false} RescheduledAt(rows: seq<Item>, n: nat, position: nat, t: Option<int>, i: nat)
    requires i < n <= |rows|
    ensures Rescheduled(rows, n, position, t)[i] ==
              if rows[i].position == position then rows[i].(notBefore := t) else rows[i]
  {
    if i < n - 1 {
      RescheduledAt(rows, n - 1, position, t, i);
    }
  }

  /** No operation issues a position twice or puts rows out of order. */
  lemma StaysOrdered(q: Queue, op: Operation)
    requires Ordered(q)
    ensures Ordered(Next(q, op))
  {
    match op
    case Take(p) => WithoutStaysOrdered(q, p);
    case Remove(p) => WithoutStaysOrdered(q, p);
    case PopHead(now) =>
      var head := Head(q.rows, |q.rows|, now);
      if head.Some? {
        WithoutStaysOrdered(q, head.value.position);
      }
    case SetNotBefore(p, t) => RescheduledStaysOrdered(q, p, t);
    case _ =>
  }

  lemma WithoutStaysOrdered(q: Queue, position: nat)
    requires Ordered(q)
    ensures Ordered(q.(rows := Without(q.rows, |q.rows|, position)))
  {
    WithoutIsPart(q.rows, |q.rows|, position);
  }

  lemma RescheduledStaysOrdered(q: Queue, position: nat, t: Option<int>)
    requires Ordered(q)
    ensures Ordered(q.(rows := Rescheduled(q.rows, |q.rows|, position, t)))
  {
    forall i | 0 <= i < |q.rows|
      ensures Rescheduled(q.rows, |q.rows|, position, t)[i].position == q.rows[i].position
    {
      RescheduledAt(q.rows, |q.rows|, position, t, i);
    }
  }

  /** The head is due and no due row stands before it; without a head nothing is due. */
  lemma {:induction false} HeadIsLowestDue(rows: seq<Item>, n: nat, now: int)
    requires n <= |rows|
    ensures var head := Head(rows, n, now);
            && (head.Some? ==> head.value in rows[..n] && head.value.Due(now))
            && (head.Some? && head.value.notBefore.Some? ==> head.value.notBefore.value <= now)
            && (forall i :: 0 <= i < n && rows[i].Due(now) ==> head.Some? && head.value.position <= rows[i].position)
            && forall i :: 0 <= i < n && (rows[i].notBefore.Some? ==> rows[i].notBefore.value <= now) ==>
                 head.Some? && head.value.position <= rows[i].position
  {
    if n > 0 {
      HeadIsLowestDue(rows, n - 1, now);
      assert rows[..n] == rows[..n - 1] + [rows[n - 1]];
    }
  }

  /** Rescheduling gives the one row its new time and leaves everything else as it is. */
  lemma {:induction false} SetNotBeforeIs(q: Queue, position: nat, t: Option<int>)
    ensures var after := Next(q, SetNotBefore(position, t));
            && after.settings == q.settings && |after.rows| == |q.rows|
            && forall i :: 0 <= i < |q.rows| ==>
                 after.rows[i] == if q.rows[i].position == position then q.rows[i].(notBefore := t) else q.rows[i]
  {
    var after := Next(q, SetNotBefore(position, t));
    forall i | 0 <= i < |q.rows|
      ensures after.rows[i] == if q.rows[i].position == position then q.rows[i].(notBefore := t) else q.rows[i]
    {
      RescheduledAt(q.rows, |q.rows|, position, t, i);
    }
  }

  // --- Runs -------------------------------------------------------------------------------

  /** Operations on one session, one after the other. */
  datatype Run = Start | Then(before: Run, op: Operation)

  function After(run: Run): Queue
  {
    if run.Start? then EMPTY else Next(After(run.before), run.op)
  }

  lemma {:induction false} AlwaysOrdered(run: Run)
    ensures Ordered(After(run))
  {
    if run.Then? {
      AlwaysOrdered(run.before);
      StaysOrdered(After(run.before), run.op);
    }
  }

  /** Whether the last SetPaused since the last Clear paused the session. */
  predicate LastPaused(run: Run)
  {
    run.Then? && if run.op.SetPaused? then run.op.paused else !run.op.Clear? && LastPaused(run.before)
  }

  lemma {:induction false} PausedIsTheLastWord(run: Run)
    ensures After(run).Paused() <==> LastPaused(run)
  {
    if run.Then? {
      PausedIsTheLastWord(run.before);
    }
  }

  /** The time last set for the position: by the Add that issued it, or by a SetNotBefore after that. */
  function TimeOf(run: Run, position: nat): Option<int>
  {
    if run.Start? || run.op.Clear? then None
    else if run.op.SetNotBefore? && run.op.position == position then run.op.notBefore
    else if run.op.Add? && Addable(run.op.item) && After(run.before).NextPosition() == position then run.op.item.notBefore
    else TimeOf(run.before, position)
  }

  /** Every row waits for the time last set for it. */
  lemma {:induction false} RowsKeepTheirTime(run: Run)
    ensures forall i :: 0 <= i < |After(run).rows| ==> After(run).rows[i].notBefore == TimeOf(run, After(run).rows[i].position)
  {
    if run.Then? && !run.op.Clear? {
      var q := After(run.before);
      RowsKeepTheirTime(run.before);
      AlwaysOrdered(run.before);
      if run.op.SetNotBefore? {
        SetNotBeforeIs(q, run.op.position, run.op.notBefore);
      } else if Deletes(run.op) {
        DeletionKeepsTheRest(q, run.op);
      }
    }
  }

  /** What was added since the last Clear, in order. */
  function Added(run: Run): seq<Item>
  {
    if run.Start? || run.op.Clear? then []
    else if run.op.Add? && Addable(run.op.item) then
      Added(run.before) + [RowFor(run.op.item, After(run.before).NextPosition(), run.op.now).Core()]
    else Added(run.before)
  }

  datatype Way = Popped | Taken | Removed

  function WayOf(op: Operation): Way { if op.PopHead? then Popped else if op.Take? then Taken else Removed }

  /** What left the queue in one way since the last Clear, in order. */
  function Departed(run: Run, way: Way): seq<Item>
  {
    if run.Start? || run.op.Clear? then []
    else
      var gone := Leaving(After(run.before), run.op);
      if gone.Some? && WayOf(run.op) == way then Departed(run.before, way) + [gone.value.Core()]
      else Departed(run.before, way)
  }

  function Cores(rows: seq<Item>): (r: seq<Item>)
    ensures |r| == |rows|
  {
    seq(|rows|, i requires 0 <= i < |rows| => rows[i].Core())
  }

  lemma CoresAppend(rows: seq<Item>, row: Item)
    ensures Cores(rows + [row]) == Cores(rows) + [row.Core()]
  {
  }

  function Bag(x: Option<Item>): multiset<Item> { if x.Some? then multiset{x.value.Core()} else multiset{} }

  lemma {:induction false} AbsentStays(rows: seq<Item>, n: nat, position: nat)
    requires n <= |rows| && forall i :: 0 <= i < n ==> rows[i].position != position
    ensures Without(rows, n, position) == rows[..n] && Find(rows, n, position) == None
  {
    if n > 0 {
      AbsentStays(rows, n - 1, position);
      assert rows[..n] == rows[..n - 1] + [rows[n - 1]];
    }
  }

  /** Deleting by position takes out exactly the row found there. */
  lemma {:induction false} DeletedIsFound(rows: seq<Item>, n: nat, position: nat)
    requires n <= |rows| && Rising(rows)
    ensures multiset(Cores(Without(rows, n, position))) + Bag(Find(rows, n, position)) == multiset(Cores(rows[..n]))
  {
    if n > 0 {
      var row := rows[n - 1];
      assert rows[..n] == rows[..n - 1] + [row];
      CoresAppend(rows[..n - 1], row);
      if row.position == position {
        AbsentStays(rows, n - 1, position);
      } else {
        DeletedIsFound(rows, n - 1, position);
        CoresAppend(Without(rows, n - 1, position), row);
      }
    }
  }

  lemma {:induction false} FindAt(rows: seq<Item>, n: nat, i: nat)
    requires i < n <= |rows| && Rising(rows)
    ensures Find(rows, n, rows[i].position) == Some(rows[i])
  {
    if i < n - 1 {
      FindAt(rows, n - 1, i);
    }
  }

  lemma HeadIsFound(rows: seq<Item>, now: int)
    requires Rising(rows)
    ensures var head := Head(rows, |rows|, now);
            head.Some? ==> Find(rows, |rows|, head.value.position) == head
  {
    var head := Head(rows, |rows|, now);
    HeadIsLowestDue(rows, |rows|, now);
    if head.Some? {
      var i :| 0 <= i < |rows| && rows[i] == head.value;
      FindAt(rows, |rows|, i);
    }
  }

  /** What an operation takes out is what its queue loses; rescheduling loses nothing. */
  lemma StepConserves(q: Queue, op: Operation)
    requires Ordered(q) && !op.Clear? && !op.Add?
    ensures multiset(Cores(Next(q, op).rows)) + Bag(Leaving(q, op)) == multiset(Cores(q.rows))
  {
    assert q.rows[..|q.rows|] == q.rows;
    match op
    case Take(p) => DeletedIsFound(q.rows, |q.rows|, p);
    case Remove(p) => DeletedIsFound(q.rows, |q.rows|, p);
    case PopHead(now) =>
      HeadIsFound(q.rows, now);
      var head := Head(q.rows, |q.rows|, now);
      if head.Some? {
        DeletedIsFound(q.rows, |q.rows|, head.value.position);
      }
    case SetNotBefore(p, t) =>
      forall i | 0 <= i < |q.rows|
        ensures Rescheduled(q.rows, |q.rows|, p, t)[i].Core() == q.rows[i].Core()
      {
        RescheduledAt(q.rows, |q.rows|, p, t, i);
      }
      assert Cores(Next(q, op).rows) == Cores(q.rows);
    case _ =>
  }

  /** Everything added is popped, taken, removed or still queued, counted with multiplicity. */
  lemma {:induction false} NothingIsLostOrInvented(run: Run)
    ensures multiset(Added(run)) ==
              multiset(Departed(run, Popped)) + multiset(Departed(run, Taken)) + multiset(Departed(run, Removed))
              + multiset(Cores(After(run).rows))
  {
    if run.Then? && !run.op.Clear? {
      NothingIsLostOrInvented(run.before);
      AlwaysOrdered(run.before);
      if run.op.Add? {
        if Addable(run.op.item) {
          CoresAppend(After(run.before).rows, RowFor(run.op.item, After(run.before).NextPosition(), run.op.now));
        }
      } else {
        StepConserves(After(run.before), run.op);
        DepartedGrows(run);
      }
    }
  }

  lemma DepartedGrows(run: Run)
    requires run.Then? && !run.op.Clear?
    ensures multiset(Departed(run, Popped)) + multiset(Departed(run, Taken)) + multiset(Departed(run, Removed)) ==
              multiset(Departed(run.before, Popped)) + multiset(Departed(run.before, Taken))
              + multiset(Departed(run.before, Removed)) + Bag(Leaving(After(run.before), run.op))
  {
    var gone := Leaving(After(run.before), run.op);
    WayGrows(run, Popped, gone);
    WayGrows(run, Taken, gone);
    WayGrows(run, Removed, gone);
    if gone.Some? {
      var way := WayOf(run.op);
      assert way == Popped || way == Taken || way == Removed;
    }
  }

  lemma WayGrows(run: Run, way: Way, gone: Option<Item>)
    requires run.Then? && !run.op.Clear? && gone == Leaving(After(run.before), run.op)
    ensures multiset(Departed(run, way)) ==
              multiset(Departed(run.before, way)) + Bag(if gone.Some? && WayOf(run.op) == way then gone else None)
  {
    if gone.Some? && WayOf(run.op) == way {
      assert Departed(run, way) == Departed(run.before, way) + [gone.value.Core()];
    }
  }

  /** Issued positions strictly increase and lie below the next one. */
  lemma {:induction false} PositionsRise(run: Run)
    ensures Rising(Added(run))
    ensures forall i :: 0 <= i < |Added(run)| ==> 0 < Added(run)[i].position < After(run).NextPosition()
    ensures After(run).settings.None? ==> Added(run) == []
  {
    if run.Then? {
      PositionsRise(run.before);
      AlwaysOrdered(run.before);
    }
  }

  lemma {:induction false} RisingCountsOnce(rows: seq<Item>, x: Item)
    requires Rising(rows)
    ensures multiset(rows)[x] <= 1
  {
    if rows != [] {
      var init, last := rows[..|rows| - 1], rows[|rows| - 1];
      assert rows == init + [last];
      RisingCountsOnce(init, x);
      forall i | 0 <= i < |init|
        ensures init[i] != last
      {
        assert rows[i].position < rows[|rows| - 1].position;
      }
    }
  }

  /** Each item added meets exactly one fate, once. */
  lemma {:induction false} EachItemHasOneFate(run: Run, x: Item)
    requires x in Added(run)
    ensures multiset(Departed(run, Popped))[x] + multiset(Departed(run, Taken))[x] + multiset(Departed(run, Removed))[x]
            + multiset(Cores(After(run).rows))[x] == 1
  {
    NothingIsLostOrInvented(run);
    PositionsRise(run);
    RisingCountsOnce(Added(run), x);
    assert x in multiset(Added(run));
  }

  // --- First in, first out ---------------------------------------------------------------------

  /** Positions of items that were given a time, when added or while they waited. */
  function Scheduled(run: Run): set<nat>
  {
    if run.Start? then {}
    else match run.op
      case Clear => {}
      case Add(item, _) =>
        if Addable(item) && item.notBefore.Some? then Scheduled(run.before) + {After(run.before).NextPosition()}
        else Scheduled(run.before)
      case SetNotBefore(p, t) =>
        if t.Some? && Find(After(run.before).rows, |After(run.before).rows|, p).Some? then Scheduled(run.before) + {p}
        else Scheduled(run.before)
      case _ => Scheduled(run.before)
  }

  /** A row that never had a time is due at any time. */
  predicate TimelessRowsAreDue(rows: seq<Item>, scheduled: set<nat>)
  {
    forall i :: 0 <= i < |rows| && rows[i].position !in scheduled ==> rows[i].notBefore.None?
  }

  /** Whatever was popped stood before every timeless row still queued. */
  predicate PoppedStoodBefore(popped: seq<Item>, rows: seq<Item>, scheduled: set<nat>)
  {
    forall i, k :: 0 <= i < |popped| && 0 <= k < |rows| && rows[k].position !in scheduled ==>
      popped[i].position < rows[k].position
  }

  predicate Deletes(op: Operation) { op.Take? || op.Remove? || op.PopHead? }

  lemma DeletionKeepsTheRest(q: Queue, op: Operation)
    requires Ordered(q) && Deletes(op)
    ensures forall i :: 0 <= i < |Next(q, op).rows| ==>
              Next(q, op).rows[i] in q.rows
              && (Leaving(q, op).Some? ==> Next(q, op).rows[i].position != Leaving(q, op).value.position)
  {
    assert q.rows[..|q.rows|] == q.rows;
    match op
    case Take(p) =>
      WithoutIsPart(q.rows, |q.rows|, p);
      FoundHasPosition(q.rows, |q.rows|, p);
    case Remove(p) =>
      WithoutIsPart(q.rows, |q.rows|, p);
      FoundHasPosition(q.rows, |q.rows|, p);
    case PopHead(now) =>
      var head := Head(q.rows, |q.rows|, now);
      if head.Some? {
        WithoutIsPart(q.rows, |q.rows|, head.value.position);
      }
  }

  lemma {:induction false} FoundHasPosition(rows: seq<Item>, n: nat, position: nat)
    requires n <= |rows|
    ensures Find(rows, n, position).Some? ==> Find(rows, n, position).value.position == position
  {
    if n > 0 && rows[n - 1].position != position {
      FoundHasPosition(rows, n - 1, position);
    }
  }

  lemma TimelessStep(q: Queue, op: Operation, before: set<nat>, after: set<nat>)
    requires Ordered(q) && !op.Clear? && TimelessRowsAreDue(q.rows, before) && before <= after
    requires op.Add? && Addable(op.item) && op.item.notBefore.Some? ==> q.NextPosition() in after
    requires op.SetNotBefore? && op.notBefore.Some? && Find(q.rows, |q.rows|, op.position).Some? ==> op.position in after
    ensures TimelessRowsAreDue(Next(q, op).rows, after)
  {
    if Deletes(op) {
      DeletionKeepsTheRest(q, op);
    } else if op.SetNotBefore? {
      forall i | 0 <= i < |q.rows|
        ensures var r := Next(q, op).rows[i];
                r.position !in after ==> r.notBefore.None?
      {
        RescheduledAt(q.rows, |q.rows|, op.position, op.notBefore, i);
        FindAt(q.rows, |q.rows|, i);
      }
    }
  }

  lemma {:induction false} TimelessRowsStayDue(run: Run)
    ensures TimelessRowsAreDue(After(run).rows, Scheduled(run))
  {
    if run.Then? && !run.op.Clear? {
      TimelessRowsStayDue(run.before);
      AlwaysOrdered(run.before);
      TimelessStep(After(run.before), run.op, Scheduled(run.before), Scheduled(run));
    }
  }

  /** A popped row stands before every timeless row left. */
  lemma PopTakesNoTimelessTurn(q: Queue, now: int, scheduled: set<nat>)
    requires Ordered(q) && TimelessRowsAreDue(q.rows, scheduled)
    ensures var head, rest := Head(q.rows, |q.rows|, now), Next(q, PopHead(now)).rows;
            head.Some? ==> forall k :: 0 <= k < |rest| && rest[k].position !in scheduled ==> head.value.position < rest[k].position
  {
    HeadIsLowestDue(q.rows, |q.rows|, now);
    DeletionKeepsTheRest(q, PopHead(now));
  }

  /** Every position popped so far is below the next one. */
  lemma {:induction false} PoppedAreIssued(run: Run)
    ensures forall i :: 0 <= i < |Departed(run, Popped)| ==> Departed(run, Popped)[i].position < After(run).NextPosition()
  {
    if run.Then? && !run.op.Clear? {
      PoppedAreIssued(run.before);
      AlwaysOrdered(run.before);
      if run.op.PopHead? {
        HeadIsLowestDue(After(run.before).rows, |After(run.before).rows|, run.op.now);
      }
    }
  }

  lemma StandBeforeStep(q: Queue, op: Operation, popped: seq<Item>, before: set<nat>, after: set<nat>)
    requires Ordered(q) && !op.Clear? && before <= after && PoppedStoodBefore(popped, q.rows, before)
    requires forall i :: 0 <= i < |popped| ==> popped[i].position < q.NextPosition()
    ensures PoppedStoodBefore(popped, Next(q, op).rows, after)
  {
    if Deletes(op) {
      DeletionKeepsTheRest(q, op);
    } else if op.SetNotBefore? {
      forall i | 0 <= i < |q.rows|
        ensures Next(q, op).rows[i].position == q.rows[i].position
      {
        RescheduledAt(q.rows, |q.rows|, op.position, op.notBefore, i);
      }
    }
  }

  lemma {:induction false} PoppedStandBefore(run: Run)
    ensures PoppedStoodBefore(Departed(run, Popped), After(run).rows, Scheduled(run))
  {
    if run.Then? && !run.op.Clear? {
      var q := After(run.before);
      PoppedStandBefore(run.before);
      PoppedAreIssued(run.before);
      AlwaysOrdered(run.before);
      TimelessRowsStayDue(run.before);
      StandBeforeStep(q, run.op, Departed(run.before, Popped), Scheduled(run.before), Scheduled(run));
      if run.op.PopHead? {
        PopTakesNoTimelessTurn(q, run.op.now, Scheduled(run.before));
      }
    }
  }

  /** A timeless item leaves by PopHead only after everything popped before it, in queue order;
      scheduled items never hold it up, and it is never overtaken by a later one. */
  lemma {:induction false} TimelessItemsLeaveInOrder(run: Run, i: nat, j: nat)
    requires i < j < |Departed(run, Popped)| && Departed(run, Popped)[j].position !in Scheduled(run)
    ensures Departed(run, Popped)[i].position < Departed(run, Popped)[j].position
  {
    var q, popped := After(run.before), Departed(run.before, Popped);
    if j < |popped| {
      TimelessItemsLeaveInOrder(run.before, i, j);
    } else {
      PoppedStandBefore(run.before);
      AlwaysOrdered(run.before);
      HeadIsLowestDue(q.rows, |q.rows|, run.op.now);
      var head := Head(q.rows, |q.rows|, run.op.now).value;
      assert q.rows[..|q.rows|] == q.rows;
      var k :| 0 <= k < |q.rows| && q.rows[k] == head;
    }
  }

  // --- The store ---------------------------------------------------------------------------

  class Store {
    var items: map<string, seq<Item>>
    var states: map<string, Settings>

    function At(id: string): Queue
      reads this
    {
      Queue(if id in items then items[id] else [], if id in states then Some(states[id]) else None)
    }

    ghost predicate Valid() reads this { forall id :: Ordered(At(id)) }

    /** Only this session's rows and settings change. */
    twostate predicate Only(id: string)
      reads this
    {
      forall other :: other != id ==> At(other) == old(At(other))
    }

    twostate lemma StaysValid(id: string)
      requires old(Valid()) && Only(id) && Ordered(At(id))
      ensures Valid()
    {
      forall other
        ensures Ordered(At(other))
      {
        if other != id {
          assert old(Ordered(At(other)));
        }
      }
    }

    constructor ()
      ensures Valid() && forall id :: At(id) == EMPTY
    {
      items, states := map[], map[];
    }

    /** Makes sure of the settings row and takes its next position. */
    method IssuePosition(id: string) returns (next: nat)
      modifies this`states
      ensures next == old(At(id)).NextPosition() && Only(id)
      ensures At(id) == old(At(id)).(settings := Some(Settings(old(At(id)).Paused(), next + 1)))
    {
      if id !in states {
        states := states[id := Settings(false, 1)];
      }
      next := states[id].next;
      states := states[id := states[id].(next := next + 1)];
    }

    /** The row holds what was asked to be queued; without a text to display, the message is displayed. */
    static predicate Carries(row: Item, item: NewItem)
    {
      && row.message == item.message && row.images == item.images && row.attachments == item.attachments
      && row.notBefore == item.notBefore
      && (item.displayText != "" ==> row.displayText == item.displayText)
      && (item.displayText == "" ==> row.displayText == item.message)
    }

    static method MakeRow(item: NewItem, position: nat, now: int) returns (row: Item)
      ensures row == RowFor(item, position, now) && Carries(row, item) && row.position == position && row.createdAt == now
    {
      var displayText := item.displayText;
      if displayText == "" {
        displayText := item.message;
      }
      row := Item(position, item.message, displayText, now, item.images, item.attachments, item.notBefore);
    }

    method AddItem(id: string, item: NewItem, now: int) returns (r: Result<Item, Error>)
      requires Valid()
      modifies this
      ensures Valid() && Only(id)
      ensures id == "" ==> r == Err(SessionRequired) && At(id) == old(At(id))
      ensures id != "" ==> At(id) == Next(old(At(id)), Add(item, now))
      ensures id != "" ==> (r.Ok? <==> item.message != "" || item.images != []) && (r.Err? ==> r.error == MessageRequired)
      ensures r.Ok? ==> At(id).rows == old(At(id)).rows + [r.value] && Carries(r.value, item)
      ensures r.Ok? ==> r.value.position == old(At(id)).NextPosition() && r.value.createdAt == now
    {
      if id == "" {
        return Err(SessionRequired);
      }
      if item.message == "" && |item.images| == 0 {
        return Err(MessageRequired);
      }
      ghost var q := At(id);
      var next := IssuePosition(id);
      var row := MakeRow(item, next, now);
      items := items[id := (if id in items then items[id] else []) + [row]];
      StaysOrdered(q, Add(item, now));
      StaysValid(id);
      r := Ok(row);
    }

    /** DELETE for one session and position. */
    method Delete(id: string, position: nat)
      modifies this`items
      ensures At(id) == old(At(id)).(rows := Without(old(At(id)).rows, |old(At(id)).rows|, position)) && Only(id)
    {
      if id in items {
        var rows := items[id];
        var kept: seq<Item> := [];
        for n := 0 to |rows|
          invariant unchanged(this) && kept == Without(rows, n, position)
        {
          if rows[n].position != position {
            kept := kept + [rows[n]];
          }
        }
        items := items[id := kept];
      }
    }

    method Take(id: string, position: nat) returns (r: Result<Option<Item>, Error>)
      requires Valid()
      modifies this
      ensures Valid() && Only(id)
      ensures id == "" ==> r == Err(SessionRequired) && At(id) == old(At(id))
      ensures id != "" ==> At(id) == Next(old(At(id)), Operation.Take(position))
      ensures id != "" ==> r == Ok(Leaving(old(At(id)), Operation.Take(position)))
    {
      if id == "" {
        return Err(SessionRequired);
      }
      ghost var q := At(id);
      var found := Find(At(id).rows, |At(id).rows|, position);
      if found.Some? {
        Delete(id, position);
      } else {
        NotFoundIsAbsent(q.rows, |q.rows|, position);
      }
      StaysOrdered(q, Operation.Take(position));
      StaysValid(id);
      r := Ok(found);
    }

    method Remove(id: string, position: nat) returns (r: Result<(), Error>)
      requires Valid()
      modifies this
      ensures Valid() && Only(id)
      ensures id == "" ==> r == Err(SessionRequired) && At(id) == old(At(id))
      ensures id != "" ==> r == Ok(()) && At(id) == Next(old(At(id)), Operation.Remove(position))
    {
      if id == "" {
        return Err(SessionRequired);
      }
      ghost var q := At(id);
      Delete(id, position);
      StaysOrdered(q, Operation.Remove(position));
      StaysValid(id);
      r := Ok(());
    }

    method SetNotBefore(id: string, position: nat, notBefore: Option<int>) returns (r: Result<(), Error>)
      requires Valid()
      modifies this
      ensures Valid() && Only(id)
      ensures id == "" ==> r == Err(SessionRequired) && At(id) == old(At(id))
      ensures id != "" ==> r == Ok(()) && At(id) == Next(old(At(id)), Operation.SetNotBefore(position, notBefore))
    {
      if id == "" {
        return Err(SessionRequired);
      }
      ghost var q := At(id);
      if id in items {
        items := items[id := Rescheduled(items[id], |items[id]|, position, notBefore)];
      }
      StaysOrdered(q, Operation.SetNotBefore(position, notBefore));
      StaysValid(id);
      r := Ok(());
    }

    /** SELECT of the head: due, ordered by position, first row. */
    method SelectHead(id: string, now: int) returns (head: Option<Item>)
      ensures head == Head(At(id).rows, |At(id).rows|, now)
    {
      var rows := At(id).rows;
      head := None;
      for n := 0 to |rows|
        invariant head == Head(rows, n, now)
      {
        if rows[n].Due(now) && (head.None? || rows[n].position < head.value.position) {
          head := Some(rows[n]);
        }
      }
    }

    method PopHead(id: string, now: int) returns (r: Result<Option<Item>, Error>)
      requires Valid()
      modifies this
      ensures Valid() && Only(id)
      ensures id == "" ==> r == Err(SessionRequired) && At(id) == old(At(id))
      ensures id != "" ==> At(id) == Next(old(At(id)), Operation.PopHead(now))
      ensures id != "" ==> r == Ok(Leaving(old(At(id)), Operation.PopHead(now)))
    {
      if id == "" {
        return Err(SessionRequired);
      }
      ghost var q := At(id);
      var head := SelectHead(id, now);
      if head.Some? {
        Delete(id, head.value.position);
      }
      StaysOrdered(q, Operation.PopHead(now));
      StaysValid(id);
      r := Ok(head);
    }

    method SetPaused(id: string, paused: bool) returns (r: Result<(), Error>)
      requires Valid()
      modifies this
      ensures Valid() && Only(id)
      ensures id == "" ==> r == Err(SessionRequired) && At(id) == old(At(id))
      ensures id != "" ==> r == Ok(()) && At(id) == Next(old(At(id)), Operation.SetPaused(paused))
    {
      if id == "" {
        return Err(SessionRequired);
      }
      ghost var q := At(id);
      states := states[id := if id in states then states[id].(paused := paused) else Settings(paused, 1)];
      StaysOrdered(q, Operation.SetPaused(paused));
      StaysValid(id);
      r := Ok(());
    }

    method Clear(id: string) returns (r: Result<(), Error>)
      requires Valid()
      modifies this
      ensures Valid() && Only(id)
      ensures id == "" ==> r == Err(SessionRequired) && At(id) == old(At(id))
      ensures id != "" ==> r == Ok(()) && At(id) == EMPTY
    {
      if id == "" {
        return Err(SessionRequired);
      }
      items, states := items - {id}, states - {id};
      StaysValid(id);
      r := Ok(());
    }

    /** The sessions to wake: each once, and exactly the unpaused ones whose PopHead would hand
        something out. */
    method SessionsWithItems(now: int) returns (ids: seq<string>)
      ensures forall id :: id in ids <==> !At(id).Paused() && Leaving(At(id), Operation.PopHead(now)).Some?
      ensures forall i, j :: 0 <= i < j < |ids| ==> ids[i] != ids[j]
    {
      ids := [];
      var todo := items.Keys;
      while todo != {}
        invariant todo <= items.Keys
        invariant forall id :: id in ids ==> id in items && id !in todo
        invariant forall id :: id in items && id !in todo ==> (id in ids <==> Wakes(id, now))
        invariant forall i, j :: 0 <= i < j < |ids| ==> ids[i] != ids[j]
        decreases |todo|
      {
        var id :| id in todo;
        todo := todo - {id};
        if !(id in states && states[id].paused) {
          var due := AnyDue(items[id], now);
          if due {
            ids := ids + [id];
          }
        }
      }
    }

    predicate Wakes(id: string, now: int)
      reads this
    {
      !At(id).Paused() && Head(At(id).rows, |At(id).rows|, now).Some?
    }
  }

  /** A row for the session whose not_before is unset or has passed. */
  method AnyDue(rows: seq<Item>, now: int) returns (any: bool)
    ensures any <==> Head(rows, |rows|, now).Some?
  {
    any := false;
    for n := 0 to |rows|
      invariant any <==> Head(rows, n, now).Some?
    {
      if rows[n].Due(now) {
        any := true;
      }
    }
  }

  lemma {:induction false} NotFoundIsAbsent(rows: seq<Item>, n: nat, position: nat)
    requires n <= |rows| && Find(rows, n, position).None?
    ensures Without(rows, n, position) == rows[..n]
  {
    if n > 0 {
      NotFoundIsAbsent(rows, n - 1, position);
      assert rows[..n] == rows[..n - 1] + [rows[n - 1]];
    }
  }
}
