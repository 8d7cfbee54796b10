/**
 Overlapping calls on one session's queue (internal/chatqueue/chatqueue.go). PopHead and Take run two
 statements outside a transaction, a SELECT and a DELETE by position, so a call of another goroutine may
 come between them; every other call is one statement or one transaction.
 */
module QueueRace {
  import opened Prelude
  import opened ChatQueue

  /** A row as a call read it. Positions start again after a Clear, hence the epoch. */
  datatype Hold = Hold(epoch: nat, item: Item)
  {
    predicate Of(e: nat, position: nat) { epoch == e && item.position == position }
  }

  /** The tables, the number of Clears, what each call in flight has read, and what calls handed out. */
  datatype Race = Race(queue: Queue, epoch: nat, held: map<nat, Hold>, handed: seq<Hold>)

  const QUIET := Race(EMPTY, 0, map[], [])

  datatype Step =
    | Read(caller: nat, op: Operation)
    | Delete(caller: nat)
    | Whole(op: Operation)

  predicate TwoSteps(op: Operation) { op.Take? || op.PopHead? }

  /** The row a step reads and will delete. */
  function ReadBy(race: Race, step: Step): Option<Hold>
  {
    if step.Read? && TwoSteps(step.op) && step.caller !in race.held && Leaving(race.queue, step.op).Some? then
      Some(Hold(race.epoch, Leaving(race.queue, step.op).value))
    else None
  }

  function Stepped(race: Race, step: Step): Race
  {
    match step
    case Read(c, _) =>
      var read := ReadBy(race, step);
      if read.Some? then race.(held := race.held[c := read.value]) else race
    case Delete(c) =>
      if c !in race.held then race
      else Race(Next(race.queue, Remove(race.held[c].item.position)), race.epoch, race.held - {c}, race.handed + [race.held[c]])
    case Whole(op) =>
      if TwoSteps(op) then race
      else race.(queue := Next(race.queue, op), epoch := race.epoch + if op.Clear? then 1 else 0)
  }

  /** Any interleaving of any calls. */
  datatype Interleaving = Begun | Followed(before: Interleaving, step: Step)

  function Reached(run: Interleaving): Race
  {
    if run.Begun? then QUIET else Stepped(Reached(run.before), run.step)
  }

  /** The calls that have read the row and not yet deleted it. */
  function Holders(race: Race, epoch: nat, position: nat): set<nat>
  {
    Holding(race.held, epoch, position)
  }

  function Holding(held: map<nat, Hold>, epoch: nat, position: nat): set<nat>
  {
    set c | c in held && held[c].Of(epoch, position)
  }

  /** How often the first `n` rows handed out are this one. */
  function Handed(handed: seq<Hold>, n: nat, epoch: nat, position: nat): nat
    requires n <= |handed|
  {
    if n == 0 then 0
    else Handed(handed, n - 1, epoch, position) + if handed[n - 1].Of(epoch, position) then 1 else 0
  }

  function TimesHanded(race: Race, epoch: nat, position: nat): nat
  {
    Handed(race.handed, |race.handed|, epoch, position)
  }

  predicate ReadsRow(race: Race, step: Step, epoch: nat, position: nat)
  {
    var read := ReadBy(race, step);
    read.Some? && read.value.Of(epoch, position)
  }

  function Reads(run: Interleaving, epoch: nat, position: nat): nat
  {
    if run.Begun? then 0
    else Reads(run.before, epoch, position) + if ReadsRow(Reached(run.before), run.step, epoch, position) then 1 else 0
  }

  /** Some read of the row falls between another call's read and its delete. */
  predicate Overlapped(run: Interleaving, epoch: nat, position: nat)
  {
    run.Followed?
    && (Overlapped(run.before, epoch, position)
        || (ReadsRow(Reached(run.before), run.step, epoch, position) && Holders(Reached(run.before), epoch, position) != {}))
  }

  // --- What every interleaving keeps -----------------------------------------------------

  /** A row of this epoch that was issued and is no longer there. */
  predicate Gone(q: Queue, position: nat)
  {
    position < q.NextPosition() && forall i :: 0 <= i < |q.rows| ==> q.rows[i].position != position
  }

  ghost predicate Sound(race: Race)
  {
    && Ordered(race.queue)
    && (forall c :: c in race.held ==> race.held[c].epoch <= race.epoch)
    && (forall c :: c in race.held && race.held[c].epoch == race.epoch ==>
          race.held[c].item.position < race.queue.NextPosition())
    && (forall i :: 0 <= i < |race.handed| ==> race.handed[i].epoch <= race.epoch)
    && (forall i :: 0 <= i < |race.handed| && race.handed[i].epoch == race.epoch ==>
          Gone(race.queue, race.handed[i].item.position))
  }

  /** A row that left never comes back before a Clear. */
  lemma GoneStaysGone(q: Queue, op: Operation, position: nat)
    requires Ordered(q) && !op.Clear? && Gone(q, position)
    ensures Gone(Next(q, op), position)
  {
    if Deletes(op) {
      DeletionKeepsTheRest(q, op);
    } else if op.SetNotBefore? {
      forall i | 0 <= i < |q.rows|
        ensures Next(q, op).rows[i].position == q.rows[i].position
      {
        RescheduledAt(q.rows, |q.rows|, op.position, op.notBefore, i);
      }
    }
  }

  lemma DeletedIsGone(q: Queue, position: nat)
    requires Ordered(q) && position < q.NextPosition()
    ensures Gone(Next(q, Remove(position)), position)
  {
    WithoutIsPart(q.rows, |q.rows|, position);
  }

  /** What a step reads is one of the rows. */
  lemma ReadIsARow(race: Race, step: Step)
    requires Ordered(race.queue) && ReadBy(race, step).Some?
    ensures ReadBy(race, step).value.item in race.queue.rows
  {
    var rows := race.queue.rows;
    assert rows[..|rows|] == rows;
    match step.op
    case Take(p) => FoundIsARow(rows, |rows|, p);
    case PopHead(now) => HeadIsLowestDue(rows, |rows|, now);
  }

  lemma {:induction false} FoundIsARow(rows: seq<Item>, n: nat, position: nat)
    requires n <= |rows|
    ensures Find(rows, n, position).Some? ==> Find(rows, n, position).value in rows
  {
    if n > 0 && rows[n - 1].position != position {
      FoundIsARow(rows, n - 1, position);
    }
  }

  lemma DeleteStaysSound(race: Race, c: nat)
    requires Sound(race) && c in race.held
    ensures Sound(Stepped(race, Delete(c)))
  {
    var q, h := race.queue, race.held[c];
    var op := Remove(h.item.position);
    StaysOrdered(q, op);
    forall i | 0 <= i < |race.handed| && race.handed[i].epoch == race.epoch
      ensures Gone(Next(q, op), race.handed[i].item.position)
    {
      GoneStaysGone(q, op, race.handed[i].item.position);
    }
    if h.epoch == race.epoch {
      DeletedIsGone(q, h.item.position);
    }
  }

  lemma WholeStaysSound(race: Race, op: Operation)
    requires Sound(race) && !TwoSteps(op)
    ensures Sound(Stepped(race, Whole(op)))
  {
    StaysOrdered(race.queue, op);
    if !op.Clear? {
      forall i | 0 <= i < |race.handed| && race.handed[i].epoch == race.epoch
        ensures Gone(Next(race.queue, op), race.handed[i].item.position)
      {
        GoneStaysGone(race.queue, op, race.handed[i].item.position);
      }
    }
  }

  lemma StaysSound(race: Race, step: Step)
    requires Sound(race)
    ensures Sound(Stepped(race, step))
  {
    match step
    case Read(c, _) =>
      if ReadBy(race, step).Some? {
        ReadIsARow(race, step);
      }
    case Delete(c) =>
      if c in race.held {
        DeleteStaysSound(race, c);
      }
    case Whole(op) =>
      if !TwoSteps(op) {
        WholeStaysSound(race, op);
      }
  }

  lemma {:induction false} AlwaysSound(run: Interleaving)
    ensures Sound(Reached(run))
  {
    if run.Followed? {
      AlwaysSound(run.before);
      StaysSound(Reached(run.before), run.step);
    }
  }

  // --- Every read is held or handed out ---------------------------------------------------

  lemma {:induction false} HandedStays(a: seq<Hold>, b: seq<Hold>, n: nat, epoch: nat, position: nat)
    requires n <= |a| && n <= |b| && forall i :: 0 <= i < n ==> a[i] == b[i]
    ensures Handed(a, n, epoch, position) == Handed(b, n, epoch, position)
  {
    if n > 0 {
      HandedStays(a, b, n - 1, epoch, position);
    }
  }

  lemma HoldingOneMore(held: map<nat, Hold>, c: nat, h: Hold, epoch: nat, position: nat)
    requires c !in held
    ensures Holding(held[c := h], epoch, position) ==
              Holding(held, epoch, position) + if h.Of(epoch, position) then {c} else {}
  {
    var was, now := Holding(held, epoch, position), Holding(held[c := h], epoch, position);
    forall d
      ensures d in now <==> d in was || (d == c && h.Of(epoch, position))
    {
    }
  }

  lemma HoldingCounts(held: map<nat, Hold>, c: nat, h: Hold, epoch: nat, position: nat)
    requires c !in held
    ensures |Holding(held[c := h], epoch, position)| ==
              |Holding(held, epoch, position)| + if h.Of(epoch, position) then 1 else 0
  {
    HoldingOneMore(held, c, h, epoch, position);
    assert c !in Holding(held, epoch, position);
    if !h.Of(epoch, position) {
      assert Holding(held[c := h], epoch, position) == Holding(held, epoch, position);
    }
  }

  /** Handing a row out moves it from the calls in flight to those done. */
  lemma DeleteCounts(race: Race, c: nat, epoch: nat, position: nat)
    requires c in race.held
    ensures var after := Stepped(race, Delete(c));
            TimesHanded(after, epoch, position) + |Holders(after, epoch, position)| ==
              TimesHanded(race, epoch, position) + |Holders(race, epoch, position)|
  {
    var after := Stepped(race, Delete(c));
    HandedStays(race.handed, after.handed, |race.handed|, epoch, position);
    HoldingCounts(race.held - {c}, c, race.held[c], epoch, position);
    assert (race.held - {c})[c := race.held[c]] == race.held;
  }

  lemma StepCounts(race: Race, step: Step, epoch: nat, position: nat)
    ensures TimesHanded(Stepped(race, step), epoch, position) + |Holders(Stepped(race, step), epoch, position)| ==
              TimesHanded(race, epoch, position) + |Holders(race, epoch, position)|
              + if ReadsRow(race, step, epoch, position) then 1 else 0
  {
    if step.Delete? && step.caller in race.held {
      DeleteCounts(race, step.caller, epoch, position);
    } else if ReadBy(race, step).Some? {
      HoldingCounts(race.held, step.caller, ReadBy(race, step).value, epoch, position);
    } else {
      assert Stepped(race, step).held == race.held;
    }
  }

  /** Each read of a row is handed out exactly once, or still in flight. */
  lemma {:induction false} EveryReadIsHandedOut(run: Interleaving, epoch: nat, position: nat)
    ensures Reads(run, epoch, position) ==
              TimesHanded(Reached(run), epoch, position) + |Holders(Reached(run), epoch, position)|
  {
    if run.Followed? {
      EveryReadIsHandedOut(run.before, epoch, position);
      StepCounts(Reached(run.before), run.step, epoch, position);
    }
  }

  lemma {:induction false} NoneHanded(handed: seq<Hold>, n: nat, epoch: nat, position: nat)
    requires n <= |handed| && forall i :: 0 <= i < n ==> !handed[i].Of(epoch, position)
    ensures Handed(handed, n, epoch, position) == 0
  {
    if n > 0 {
      NoneHanded(handed, n - 1, epoch, position);
    }
  }

  /** A row that is read was never handed out before. */
  lemma ReadIsNotHandedYet(race: Race, step: Step, epoch: nat, position: nat)
    requires Sound(race) && ReadsRow(race, step, epoch, position)
    ensures TimesHanded(race, epoch, position) == 0
  {
    ReadIsARow(race, step);
    assert !Gone(race.queue, position);
    NoneHanded(race.handed, |race.handed|, epoch, position);
  }

  lemma {:induction false} ReadTwiceIffOverlapped(run: Interleaving, epoch: nat, position: nat)
    ensures Reads(run, epoch, position) >= 2 <==> Overlapped(run, epoch, position)
  {
    if run.Followed? {
      var race := Reached(run.before);
      ReadTwiceIffOverlapped(run.before, epoch, position);
      if ReadsRow(race, run.step, epoch, position) {
        AlwaysSound(run.before);
        ReadIsNotHandedYet(race, run.step, epoch, position);
        EveryReadIsHandedOut(run.before, epoch, position);
      }
    }
  }

  /** In any interleaving a row is handed out, or about to be, more than once exactly when some read of it
      fell between another call's read and its delete. */
  lemma HandedOutOnceIffNoOverlap(run: Interleaving, epoch: nat, position: nat)
    ensures TimesHanded(Reached(run), epoch, position) + |Holders(Reached(run), epoch, position)| <= 1 <==>
              !Overlapped(run, epoch, position)
    ensures Holders(Reached(run), epoch, position) == {} ==>
              (TimesHanded(Reached(run), epoch, position) <= 1 <==> !Overlapped(run, epoch, position))
  {
    EveryReadIsHandedOut(run, epoch, position);
    ReadTwiceIffOverlapped(run, epoch, position);
  }

  /** A call whose delete directly follows its read is the one operation of the queue. */
  lemma UndisturbedCallIsOneOperation(race: Race, c: nat, op: Operation)
    requires Ordered(race.queue) && (op.Take? || op.PopHead?) && c !in race.held
    ensures var after := Stepped(Stepped(race, Read(c, op)), Delete(c));
            && after.queue == Next(race.queue, op) && after.held == race.held && after.epoch == race.epoch
            && after.handed == race.handed + var gone := Leaving(race.queue, op);
                                             if gone.Some? then [Hold(race.epoch, gone.value)] else []
  {
    var q := race.queue;
    if Leaving(q, op).Some? {
      if op.Take? {
        FoundHasPosition(q.rows, |q.rows|, op.position);
      }
    } else if op.Take? {
      NotFoundIsAbsent(q.rows, |q.rows|, op.position);
    }
  }

  /** Every other call is that operation at once; a Clear begins a new epoch. */
  lemma OtherCallsAreOneOperation(race: Race, op: Operation)
    requires !op.Take? && !op.PopHead?
    ensures Stepped(race, Whole(op)) ==
              Race(Next(race.queue, op), if op.Clear? then race.epoch + 1 else race.epoch, race.held, race.handed)
  {
  }

  lemma HandedTwice(handed: seq<Hold>, h: Hold)
    ensures var after := handed + [h, h];
            Handed(after, |after|, h.epoch, h.item.position) == Handed(handed, |handed|, h.epoch, h.item.position) + 2
  {
    var after := handed + [h, h];
    HandedStays(handed, after, |handed|, h.epoch, h.item.position);
    assert after[|handed|] == h && after[|handed| + 1] == h;
    assert Handed(after, |handed| + 1, h.epoch, h.item.position) == Handed(after, |handed|, h.epoch, h.item.position) + 1;
  }

  lemma TwoReadsTwoDeletes(race: Race, c: nat, d: nat, op: Operation)
    requires c != d && c !in race.held && d !in race.held && TwoSteps(op) && Leaving(race.queue, op).Some?
    ensures var h := Hold(race.epoch, Leaving(race.queue, op).value);
            var two := Stepped(Stepped(race, Read(c, op)), Read(d, op));
            && two == race.(held := race.held[c := h][d := h])
            && Stepped(Stepped(two, Delete(c)), Delete(d)).handed == race.handed + [h, h]
  {
    var h := Hold(race.epoch, Leaving(race.queue, op).value);
    var two := Stepped(Stepped(race, Read(c, op)), Read(d, op));
    assert two == race.(held := race.held[c := h][d := h]);
    var three := Stepped(two, Delete(c));
    assert three.handed == race.handed + [h] && d in three.held && three.held[d] == h;
    assert race.handed + [h] + [h] == race.handed + [h, h];
  }

  /** After any run, two calls that would take the same row and both read before either deletes hand it
      out twice. */
  lemma OverlappingPopsDeliverTwice(run: Interleaving, c: nat, d: nat, op: Operation)
    requires c != d && c !in Reached(run).held && d !in Reached(run).held
    requires TwoSteps(op) && Leaving(Reached(run).queue, op).Some?
    ensures var race := Reached(run);
            var row := Leaving(race.queue, op).value;
            var both := Followed(Followed(Followed(Followed(run, Read(c, op)), Read(d, op)), Delete(c)), Delete(d));
            && Reached(both).handed == race.handed + [Hold(race.epoch, row), Hold(race.epoch, row)]
            && Overlapped(both, race.epoch, row.position)
            && TimesHanded(Reached(both), race.epoch, row.position) == TimesHanded(race, race.epoch, row.position) + 2
  {
    var race := Reached(run);
    var h := Hold(race.epoch, Leaving(race.queue, op).value);
    var one := Followed(run, Read(c, op));
    assert Reached(one) == race.(held := race.held[c := h]);
    assert c in Holders(Reached(one), race.epoch, h.item.position);
    assert Overlapped(Followed(one, Read(d, op)), race.epoch, h.item.position);
    TwoReadsTwoDeletes(race, c, d, op);
    var two := Followed(one, Read(d, op));
    assert Reached(two) == Stepped(Stepped(race, Read(c, op)), Read(d, op));
    assert Reached(Followed(two, Delete(c))) == Stepped(Reached(two), Delete(c));
    HandedTwice(race.handed, h);
  }
}
