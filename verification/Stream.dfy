/**
 Folding pi's assistant events into the streamed preview (internal/rpc/stream.go and the
 preview half of handleRPCLine in internal/rpc/worker.go), and what a worker that
 reattaches to a holder shows compared with one that never went away.
 */
module Stream {
  import opened Prelude
  import opened Wire

  datatype Preview = Preview(content: string, thinking: string, done: bool)

  datatype Accumulator = Accumulator(content: string, thinking: string, active: bool)
  {
    predicate Empty() { content == "" && thinking == "" && !active }

    function Snapshot(done: bool): Preview { Preview(content, thinking, done) }
  }

  const FRESH := Accumulator("", "", false)

  /** The accumulator after an event, and the preview the event gives rise to. */
  datatype Outcome = Outcome(acc: Accumulator, preview: Option<Preview>)

  function Finished(a: Accumulator): Outcome
  {
    if a.Empty() then Outcome(a, None) else Outcome(FRESH, Some(a.Snapshot(true)))
  }

  function Handled(a: Accumulator, event: AssistantEvent): Outcome
  {
    match event
    case ThinkingDelta(delta) =>
      var b := Accumulator(a.content, a.thinking + delta, true);
      Outcome(b, Some(b.Snapshot(false)))
    case ThinkingEnd(content) =>
      var b := if content != "" then a.(thinking := content) else a;
      if b.Empty() then Outcome(b, None)
      else Outcome(b.(active := true), Some(b.Snapshot(false)))
    case TextDelta(delta) =>
      var b := Accumulator(a.content + delta, a.thinking, true);
      Outcome(b, Some(b.Snapshot(false)))
    case TextEnd(content) => Finished(if content != "" then a.(content := content) else a)
    case OtherEvent => Outcome(a, None)
  }

  function Consumed(a: Accumulator, line: Line): Outcome
  {
    match line
    case MessageUpdate(event) => Handled(a, event)
    case MessageEnd => Finished(a)
    case TurnEnd => Finished(a)
    case AgentEnd => Finished(a)
    case _ => Outcome(a, None)
  }

  /** Lines that close the message being streamed. */
  predicate Closes(line: Line)
  {
    line.MessageEnd? || line.TurnEnd? || line.AgentEnd? || (line.MessageUpdate? && line.event.TextEnd?)
  }

  // --- Consuming a stretch of output -----------------------------------------------

  /** The accumulator after lines `from..to`, starting from `a`. */
  function After(a: Accumulator, out: seq<Line>, from: nat, to: nat): Accumulator
    requires from <= to <= |out|
  {
    if from == to then a else Consumed(After(a, out, from, to - 1), out[to - 1]).acc
  }

  /** The previews shown while consuming lines `from..to`, starting from `a`. */
  function Shown(a: Accumulator, out: seq<Line>, from: nat, to: nat): seq<Preview>
    requires from <= to <= |out|
  {
    if from == to then []
    else Shown(a, out, from, to - 1) + AsSeq(Consumed(After(a, out, from, to - 1), out[to - 1]).preview)
  }

  function AsSeq(p: Option<Preview>): seq<Preview> { if p.Some? then [p.value] else [] }

  lemma {:induction false} AfterSplits(a: Accumulator, out: seq<Line>, from: nat, mid: nat, to: nat)
    requires from <= mid <= to <= |out|
    ensures After(After(a, out, from, mid), out, mid, to) == After(a, out, from, to)
  {
    if mid < to {
      AfterSplits(a, out, from, mid, to - 1);
    }
  }

  // --- What a preview says -----------------------------------------------------------

  /** All text streamed in lines `from..to`. */
  function TextOf(out: seq<Line>, from: nat, to: nat): string
    requires from <= to <= |out|
  {
    if from == to then ""
    else
      var line := out[to - 1];
      TextOf(out, from, to - 1) + if line.MessageUpdate? && line.event.TextDelta? then line.event.delta else ""
  }

  /** All reasoning streamed in lines `from..to`; a non-empty thinking_end restates it. */
  function ThinkingOf(out: seq<Line>, from: nat, to: nat): string
    requires from <= to <= |out|
  {
    if from == to then ""
    else
      var line, sofar := out[to - 1], ThinkingOf(out, from, to - 1);
      if line.MessageUpdate? && line.event.ThinkingDelta? then sofar + line.event.delta
      else if line.MessageUpdate? && line.event.ThinkingEnd? && line.event.content != "" then line.event.content
      else sofar
  }

  ghost predicate ClosesWithin(out: seq<Line>, from: nat, to: nat)
    requires from <= to <= |out|
  {
    exists i :: from <= i < to && Closes(out[i])
  }

  /** Closing a message leaves nothing behind, whatever was there before. */
  lemma ClosingForgets(a: Accumulator, line: Line)
    requires Closes(line)
    ensures Consumed(a, line).acc == FRESH
  {
  }

  /** While a message streams, the accumulator holds exactly its text and reasoning so far. */
  lemma {:induction false} AccumulatorIsMessageSoFar(out: seq<Line>, from: nat, to: nat)
    requires from <= to <= |out| && !ClosesWithin(out, from, to)
    ensures After(FRESH, out, from, to).content == TextOf(out, from, to)
    ensures After(FRESH, out, from, to).thinking == ThinkingOf(out, from, to)
    ensures !After(FRESH, out, from, to).active ==> After(FRESH, out, from, to).Empty()
  {
    if from < to {
      assert !Closes(out[to - 1]);
      AccumulatorIsMessageSoFar(out, from, to - 1);
    }
  }

  /** A done preview shows the whole message: all text since the previous close (unless the
      text_end restates it) and all its reasoning. */
  lemma {:induction false} DonePreviewIsWholeMessage(a: Accumulator, out: seq<Line>, from: nat, start: nat, end: nat)
    requires from < start <= end < |out|
    requires Closes(out[start - 1]) && !ClosesWithin(out, start, end) && Closes(out[end])
    ensures var p := Consumed(After(a, out, from, end), out[end]).preview;
            p.Some? ==>
              && p.value.done
              && p.value.thinking == ThinkingOf(out, start, end)
              && p.value.content == if out[end].MessageUpdate? && out[end].event.content != "" then out[end].event.content
                                    else TextOf(out, start, end)
  {
    ClosingForgets(After(a, out, from, start - 1), out[start - 1]);
    AfterSplits(a, out, from, start, end);
    AccumulatorIsMessageSoFar(out, start, end);
  }

  // --- What is shown while a message streams ---------------------------------------------

  /** A line that gives the message something to show: a delta, even an empty one, or a thinking_end that
      restates the reasoning. */
  predicate Speaks(line: Line)
  {
    line.MessageUpdate? &&
    (line.event.TextDelta? || line.event.ThinkingDelta? || (line.event.ThinkingEnd? && line.event.content != ""))
  }

  ghost predicate Silent(out: seq<Line>, from: nat, to: nat)
    requires from <= to <= |out|
  {
    forall i :: from <= i < to ==> !Speaks(out[i])
  }

  /** A message begins at line `start` for who consumes lines from `from` on, fresh or right after a close. */
  predicate Begins(a: Accumulator, out: seq<Line>, from: nat, start: nat)
    requires from <= start <= |out|
  {
    (start == from && a == FRESH) || (from < start && Closes(out[start - 1]))
  }

  function SoFar(out: seq<Line>, start: nat, to: nat, done: bool): Preview
    requires start <= to <= |out|
  {
    Preview(TextOf(out, start, to), ThinkingOf(out, start, to), done)
  }

  /** The text the closing line leaves of the message: a text_end may restate it. */
  function WholeText(out: seq<Line>, start: nat, end: nat): string
    requires start <= end < |out|
  {
    if out[end].MessageUpdate? && out[end].event.TextEnd? && out[end].event.content != "" then out[end].event.content
    else TextOf(out, start, end)
  }

  /** The message shows nothing at its closing line: nothing spoke, and no text_end restates a text. */
  ghost predicate StaysEmpty(out: seq<Line>, start: nat, end: nat)
    requires start <= end < |out|
  {
    Silent(out, start, end) && WholeText(out, start, end) == ""
  }

  lemma {:induction false} SilentSaysNothing(out: seq<Line>, from: nat, to: nat)
    requires from <= to <= |out| && Silent(out, from, to)
    ensures TextOf(out, from, to) == "" && ThinkingOf(out, from, to) == ""
  {
    if from < to {
      assert !Speaks(out[to - 1]);
      SilentSaysNothing(out, from, to - 1);
    }
  }

  lemma {:induction false} EmptyIffSilent(out: seq<Line>, from: nat, to: nat)
    requires from <= to <= |out| && !ClosesWithin(out, from, to)
    ensures After(FRESH, out, from, to).Empty() <==> Silent(out, from, to)
  {
    if from < to {
      assert !Closes(out[to - 1]);
      EmptyIffSilent(out, from, to - 1);
      FreshStaysTidy(out, from, to - 1);
      AccumulatorIsMessageSoFar(out, from, to - 1);
    }
  }

  /** What is held of the message that begins at `start`. */
  lemma HeldSoFar(a: Accumulator, out: seq<Line>, from: nat, start: nat, to: nat)
    requires from <= start <= to <= |out| && Begins(a, out, from, start) && !ClosesWithin(out, start, to)
    ensures var h := After(a, out, from, to);
            && h.content == TextOf(out, start, to) && h.thinking == ThinkingOf(out, start, to)
            && (h.Empty() <==> Silent(out, start, to)) && (!h.active ==> h.Empty())
  {
    if from < start {
      ClosingForgets(After(a, out, from, start - 1), out[start - 1]);
    }
    AfterSplits(a, out, from, start, to);
    AccumulatorIsMessageSoFar(out, start, to);
    EmptyIffSilent(out, start, to);
  }

  /** What the line at `i` shows of the message that began at `start`. */
  ghost function Due(out: seq<Line>, start: nat, i: nat): seq<Preview>
    requires start <= i < |out|
  {
    var line := out[i];
    if Closes(line) then
      if StaysEmpty(out, start, i) then [] else [Preview(WholeText(out, start, i), ThinkingOf(out, start, i), true)]
    else if line.MessageUpdate? && (line.event.TextDelta? || line.event.ThinkingDelta?) then [SoFar(out, start, i + 1, false)]
    else if line.MessageUpdate? && line.event.ThinkingEnd? && !Silent(out, start, i + 1) then [SoFar(out, start, i + 1, false)]
    else []
  }

  lemma SilentOneMore(out: seq<Line>, from: nat, to: nat)
    requires from < to <= |out|
    ensures Silent(out, from, to) <==> Silent(out, from, to - 1) && !Speaks(out[to - 1])
  {
    if Silent(out, from, to) {
      assert !Speaks(out[to - 1]);
    }
  }

  /** Every delta is shown at once, with all text and reasoning of its message so far and not done; a
      thinking_end too unless the message is still empty; a closing line shows the whole message as done
      unless it stayed empty; nothing else shows anything. */
  lemma ShownIsDue(a: Accumulator, out: seq<Line>, from: nat, start: nat, i: nat)
    requires from <= start <= i < |out| && Begins(a, out, from, start) && !ClosesWithin(out, start, i)
    ensures Shown(a, out, from, i + 1) == Shown(a, out, from, i) + Due(out, start, i)
  {
    HeldSoFar(a, out, from, start, i);
    LineShowsDue(After(a, out, from, i), out, start, i);
  }

  lemma LineShowsDue(h: Accumulator, out: seq<Line>, start: nat, i: nat)
    requires start <= i < |out|
    requires h.content == TextOf(out, start, i) && h.thinking == ThinkingOf(out, start, i)
    requires (h.Empty() <==> Silent(out, start, i)) && (!h.active ==> h.Empty())
    ensures AsSeq(Consumed(h, out[i]).preview) == Due(out, start, i)
  {
    SilentOneMore(out, start, i + 1);
    assert TextOf(out, start, i + 1) ==
      TextOf(out, start, i) + if out[i].MessageUpdate? && out[i].event.TextDelta? then out[i].event.delta else "";
    assert ThinkingOf(out, start, i + 1) ==
      if out[i].MessageUpdate? && out[i].event.ThinkingDelta? then h.thinking + out[i].event.delta
      else if out[i].MessageUpdate? && out[i].event.ThinkingEnd? && out[i].event.content != "" then out[i].event.content
      else h.thinking;
    if Silent(out, start, i) {
      SilentSaysNothing(out, start, i);
    }
    assert h.content + "" == h.content;
  }

  // --- A whole stretch -------------------------------------------------------------------------

  /** Where the message that line `to` belongs to begins, among the lines from `from` on. */
  function StartOf(out: seq<Line>, from: nat, to: nat): (start: nat)
    requires from <= to <= |out|
    ensures from <= start <= to && (start == from || Closes(out[start - 1])) && !ClosesWithin(out, start, to)
  {
    if from == to || Closes(out[to - 1]) then to else StartOf(out, from, to - 1)
  }

  /** What lines `mid..to` show to who consumes from `from` on. */
  ghost function AllDue(out: seq<Line>, from: nat, mid: nat, to: nat): seq<Preview>
    requires from <= mid <= to <= |out|
  {
    if mid == to then [] else AllDue(out, from, mid, to - 1) + Due(out, StartOf(out, from, to - 1), to - 1)
  }

  /** Who starts fresh shows, from any later line on, exactly what is due, message by message. */
  lemma {:induction false} FreshShowsWhatIsDue(out: seq<Line>, from: nat, mid: nat, to: nat)
    requires from <= mid <= to <= |out|
    ensures Shown(After(FRESH, out, from, mid), out, mid, to) == AllDue(out, from, mid, to)
  {
    if mid < to {
      FreshShowsWhatIsDue(out, from, mid, to - 1);
      LastLineShowsDue(out, from, mid, to);
    }
  }

  lemma LastLineShowsDue(out: seq<Line>, from: nat, mid: nat, to: nat)
    requires from <= mid < to <= |out|
    ensures var a := After(FRESH, out, from, mid);
            Shown(a, out, mid, to) == Shown(a, out, mid, to - 1) + Due(out, StartOf(out, from, to - 1), to - 1)
  {
    var start := StartOf(out, from, to - 1);
    AfterSplits(FRESH, out, from, mid, to - 1);
    HeldSoFar(FRESH, out, from, start, to - 1);
    LineShowsDue(After(FRESH, out, from, to - 1), out, start, to - 1);
  }

  // --- Resynchronising ---------------------------------------------------------------

  /** Two accumulators in any states agree from the first close on. */
  lemma {:induction false} CloseResynchronises(a: Accumulator, b: Accumulator, out: seq<Line>, from: nat, to: nat)
    requires from <= to <= |out|
    requires a == b || ClosesWithin(out, from, to)
    ensures After(a, out, from, to) == After(b, out, from, to)
  {
    if from < to {
      if Closes(out[to - 1]) {
        ClosingForgets(After(a, out, from, to - 1), out[to - 1]);
        ClosingForgets(After(b, out, from, to - 1), out[to - 1]);
      } else {
        CloseResynchronises(a, b, out, from, to - 1);
      }
    }
  }

  /** Holds of every accumulator that started fresh. */
  predicate Tidy(a: Accumulator) { a.active || a.Empty() }

  lemma {:induction false} FreshStaysTidy(out: seq<Line>, from: nat, to: nat)
    requires from <= to <= |out|
    ensures Tidy(After(FRESH, out, from, to))
  {
    if from < to {
      FreshStaysTidy(out, from, to - 1);
    }
  }

  /** Resynchronising is also necessary: accumulators that differ show something different at
      the next message_end. */
  lemma {:induction false} DifferentAccumulatorsShowDifferentPreviews(a: Accumulator, b: Accumulator)
    requires Tidy(a) && Tidy(b)
    ensures a == b <==> Consumed(a, MessageEnd).preview == Consumed(b, MessageEnd).preview
  {
  }

  /** So of two viewers that started fresh, wherever each came in, a message_end tells whether they
      hold the same. */
  lemma {:induction false} MessageEndTellsAccumulatorsApart(out: seq<Line>, from: nat, other: nat, to: nat)
    requires from <= to <= |out| && other <= to
    ensures var a, b := After(FRESH, out, from, to), After(FRESH, out, other, to);
            a == b <==> Consumed(a, MessageEnd).preview == Consumed(b, MessageEnd).preview
  {
    FreshStaysTidy(out, from, to);
    FreshStaysTidy(out, other, to);
    DifferentAccumulatorsShowDifferentPreviews(After(FRESH, out, from, to), After(FRESH, out, other, to));
  }

  lemma {:induction false} EqualStartsShowTheSame(a: Accumulator, b: Accumulator, out: seq<Line>, from: nat, mid: nat, to: nat)
    requires from <= mid <= to <= |out|
    requires After(a, out, from, mid) == b
    ensures Shown(a, out, from, to) == Shown(a, out, from, mid) + Shown(b, out, mid, to)
  {
    if mid < to {
      EqualStartsShowTheSame(a, b, out, from, mid, to - 1);
      AfterSplits(a, out, from, mid, to - 1);
    }
  }

  // --- The accumulator itself --------------------------------------------------------

  class StreamPreviewAccumulator {
    var content: string
    var thinking: string
    var active: bool

    function Value(): Accumulator
      reads this
    {
      Accumulator(content, thinking, active)
    }

    constructor ()
      ensures Value() == FRESH
    {
      content, thinking, active := "", "", false;
    }

    method Reset()
      modifies this
      ensures Value() == FRESH
    {
      content, thinking, active := "", "", false;
    }

    method Complete() returns (preview: Option<Preview>)
      modifies this
      ensures Outcome(Value(), preview) == old(Finished(Value()))
    {
      if Value().Empty() {
        return None;
      }
      preview := Some(Value().Snapshot(true));
      Reset();
    }

    method HandleAssistantEvent(event: AssistantEvent) returns (preview: Option<Preview>)
      modifies this
      ensures Outcome(Value(), preview) == old(Handled(Value(), event))
    {
      match event
      case ThinkingDelta(delta) =>
        thinking := thinking + delta;
        active := true;
        preview := Some(Value().Snapshot(false));
      case ThinkingEnd(text) =>
        if text != "" {
          thinking := text;
        }
        if Value().Empty() {
          return None;
        }
        active := true;
        preview := Some(Value().Snapshot(false));
      case TextDelta(delta) =>
        content := content + delta;
        active := true;
        preview := Some(Value().Snapshot(false));
      case TextEnd(text) =>
        if text != "" {
          content := text;
        }
        preview := Complete();
      case OtherEvent =>
        preview := None;
    }
  }
}
