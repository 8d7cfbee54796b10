/**
 Streamed text that must survive until its canonical entry arrives
 (web/src/session/live/chat-preview.js; its callers are in
 web/src/components/session/LiveReload.svelte).
 */
module ChatPreview {
  import opened Prelude
  import opened Text

  // --- Canonical entries ------------------------------------------------------------

  datatype Block = TextBlock(text: string) | OtherBlock

  datatype Content = Whole(text: string) | Blocks(blocks: seq<Block>) | NoContent

  /** A session entry; the role is empty when the entry has none. */
  datatype Entry = Entry(role: string, content: Content)

  function BlockTexts(blocks: seq<Block>, n: nat): seq<string>
    requires n <= |blocks|
  {
    if n == 0 then []
    else
      var b := blocks[n - 1];
      BlockTexts(blocks, n - 1) + if b.TextBlock? && b.text != "" then [b.text] else []
  }

  function EntryTexts(e: Entry): seq<string>
  {
    if e.role != "" && e.role != "assistant" then []
    else match e.content
      case Whole(text) => [text]
      case Blocks(blocks) => BlockTexts(blocks, |blocks|)
      case NoContent => []
  }

  /** The assistant texts of the first `n` entries. */
  function AssistantTexts(entries: seq<Entry>, n: nat): seq<string>
    requires n <= |entries|
  {
    if n == 0 then [] else AssistantTexts(entries, n - 1) + EntryTexts(entries[n - 1])
  }

  /** The entry is the assistant's, or nobody's, and the text is all it says or one of its text blocks. */
  predicate Says(e: Entry, text: string)
  {
    e.role in {"", "assistant"}
    && (e.content == Whole(text) || (e.content.Blocks? && text != "" && TextBlock(text) in e.content.blocks))
  }

  lemma {:induction false} BlockTextsAre(blocks: seq<Block>, n: nat, text: string)
    requires n <= |blocks|
    ensures text in BlockTexts(blocks, n) <==> text != "" && exists i :: 0 <= i < n && blocks[i] == TextBlock(text)
  {
    if n > 0 {
      BlockTextsAre(blocks, n - 1, text);
    }
  }

  lemma {:induction false} AssistantTextsAre(entries: seq<Entry>, n: nat, text: string)
    requires n <= |entries|
    ensures text in AssistantTexts(entries, n) <==> exists i :: 0 <= i < n && Says(entries[i], text)
  {
    if n > 0 {
      AssistantTextsAre(entries, n - 1, text);
      var e := entries[n - 1];
      if e.content.Blocks? {
        BlockTextsAre(e.content.blocks, |e.content.blocks|, text);
      }
      assert text in EntryTexts(e) <==> Says(e, text);
    }
  }

  method CollectAssistantTexts(entries: seq<Entry>) returns (texts: seq<string>)
    ensures texts == AssistantTexts(entries, |entries|)
  {
    texts := [];
    for n := 0 to |entries|
      invariant texts == AssistantTexts(entries, n)
    {
      var e := entries[n];
      if e.role != "" && e.role != "assistant" {
        assert texts + [] == texts;
        continue;
      }
      match e.content {
        case Whole(text) =>
          texts := texts + [text];
        case Blocks(blocks) =>
          ghost var before := texts;
          for k := 0 to |blocks|
            invariant texts == before + BlockTexts(blocks, k)
          {
            if blocks[k].TextBlock? && blocks[k].text != "" {
              texts := texts + [blocks[k].text];
            }
          }
        case NoContent =>
          assert texts + [] == texts;
      }
    }
  }

  predicate Occurs(part: string, s: string) { IndexFrom(s, part, 0).Some? }

  /** Whether one of the first `n` texts contains the text; blank text never matches. */
  predicate Holds(texts: seq<string>, n: nat, text: string)
    requires n <= |texts|
  {
    text != "" && n > 0 && (Occurs(text, texts[n - 1]) || Holds(texts, n - 1, text))
  }

  /** Holding means some text contains it at some position. */
  lemma {:induction false} HoldsMeansContained(texts: seq<string>, n: nat, text: string)
    requires n <= |texts|
    ensures Holds(texts, n, text) <==>
              text != "" && exists i, at :: 0 <= i < n && 0 <= at <= |texts[i]| && OccursAt(texts[i], text, at)
  {
    if n > 0 {
      HoldsMeansContained(texts, n - 1, text);
      var t := texts[n - 1];
      if Occurs(text, t) {
        assert OccursAt(t, text, IndexFrom(t, text, 0).value);
      }
    }
  }

  /** What a reload brings: the entries it found new and, when given, everything the model holds. */
  datatype Reload = Reload(added: seq<Entry>, all: Option<seq<Entry>>)
  {
    function Added(): seq<string> { AssistantTexts(added, |added|) }

    function Any(): seq<string> { if all.None? then Added() else AssistantTexts(all.value, |all.value|) }

    predicate IsNew(text: string) { Holds(Added(), |Added()|, text) }

    predicate IsKnown(text: string) { Holds(Any(), |Any()|, text) }
  }

  predicate Contains(whole: string, part: string) { exists at :: 0 <= at <= |whole| && OccursAt(whole, part, at) }

  /** An entry says something that contains the text. */
  ghost predicate Supplies(entries: seq<Entry>, text: string)
  {
    exists i, said :: 0 <= i < |entries| && Says(entries[i], said) && Contains(said, text)
  }

  lemma {:induction false} SuppliesIff(entries: seq<Entry>, text: string)
    ensures var texts := AssistantTexts(entries, |entries|);
            Holds(texts, |texts|, text) <==> text != "" && Supplies(entries, text)
  {
    var texts := AssistantTexts(entries, |entries|);
    HoldsMeansContained(texts, |texts|, text);
    if Holds(texts, |texts|, text) {
      var i, at :| 0 <= i < |texts| && 0 <= at <= |texts[i]| && OccursAt(texts[i], text, at);
      AssistantTextsAre(entries, |entries|, texts[i]);
      assert Contains(texts[i], text);
    }
    if text != "" && Supplies(entries, text) {
      var i, said :| 0 <= i < |entries| && Says(entries[i], said) && Contains(said, text);
      AssistantTextsAre(entries, |entries|, said);
      var k :| 0 <= k < |texts| && texts[k] == said;
      assert Contains(texts[k], text);
    }
  }

  /** What a reload supplies anew, and what it knows: that and, when it says so, all the model holds. */
  lemma {:induction false} ReloadMeans(reload: Reload, text: string)
    ensures reload.IsNew(text) <==> text != "" && Supplies(reload.added, text)
    ensures reload.IsKnown(text) <==> text != "" && Supplies(if reload.all.Some? then reload.all.value else reload.added, text)
  {
    SuppliesIff(reload.added, text);
    if reload.all.Some? {
      SuppliesIff(reload.all.value, text);
    }
  }

  // --- Steps --------------------------------------------------------------------------

  /** The preview element: its raw text and whether it carries the `done` class. */
  datatype Live = Live(text: string, done: bool)

  datatype State = State(live: Option<Live>, settled: seq<string>)

  const EMPTY := State(None, [])

  /** archiveDonePreview: a finished preview moves aside before the next message streams in; one
      without text is dropped. */
  function Archived(s: State): State
  {
    if s.live.None? || !s.live.value.done then s
    else
      var text := Trim(s.live.value.text);
      State(None, if text == "" then s.settled else s.settled + [text])
  }

  function Rendered(s: State, content: string, done: bool): State
  {
    State(Some(Live(content, done)), Archived(s).settled)
  }

  function Finished(s: State): State
  {
    if s.live.None? then s else s.(live := Some(s.live.value.(done := true)))
  }

  /** The first `n` archived chunks whose text is not known. */
  function Remaining(settled: seq<string>, n: nat, reload: Reload): seq<string>
    requires n <= |settled|
  {
    if n == 0 then []
    else if reload.IsKnown(Trim(settled[n - 1])) then Remaining(settled, n - 1, reload)
    else Remaining(settled, n - 1, reload) + [settled[n - 1]]
  }

  predicate Clearable(live: Live, reload: Reload, running: bool)
  {
    var shown := Trim(live.text);
    if shown != "" then reload.IsNew(shown) || (live.done && !running && reload.IsKnown(shown))
    else live.done || !running
  }

  function Reconciled(s: State, reload: Reload, running: bool): State
  {
    State(if s.live.Some? && Clearable(s.live.value, reload, running) then None else s.live,
          Remaining(s.settled, |s.settled|, reload))
  }

  /** A new user message starts over with an empty preview. */
  function Sent(s: State, message: string): State
  {
    if Trim(message) == "" then s else s.(live := Some(Live("", false)))
  }

  datatype Step =
    | Render(content: string, done: bool)
    | Finish
    | Reconcile(reload: Reload, running: bool)
    | Send(message: string)

  function Next(s: State, step: Step): State
  {
    match step
    case Render(content, done) => Rendered(s, content, done)
    case Finish => Finished(s)
    case Reconcile(reload, running) => Reconciled(s, reload, running)
    case Send(message) => Sent(s, message)
  }

  // --- Runs -----------------------------------------------------------------------------

  datatype Run = Start | Then(before: Run, step: Step)

  function After(run: Run): State
  {
    if run.Start? then EMPTY else Next(After(run.before), run.step)
  }

  predicate FinishedShows(s: State, text: string) { s.live.Some? && s.live.value.done && Trim(s.live.value.text) == text }

  /** At some point of the run a finished preview showed the text. */
  predicate WasShownFinished(run: Run, text: string)
  {
    run.Then? && (FinishedShows(After(run), text) || WasShownFinished(run.before, text))
  }

  /** The text is on the page still: in the finished live preview or in an archived chunk. */
  predicate OnPage(s: State, text: string) { FinishedShows(s, text) || text in s.settled }

  /** Some reload of the run brought an assistant entry that contains the text. */
  predicate WasSupplied(run: Run, text: string)
  {
    run.Then? &&
    (WasSupplied(run.before, text)
     || (run.step.Reconcile? && (run.step.reload.IsNew(text) || run.step.reload.IsKnown(text))))
  }

  /** The user sent a message while a finished live preview showed the text. */
  predicate WasSentOver(run: Run, text: string)
  {
    run.Then? &&
    (WasSentOver(run.before, text)
     || (run.step.Send? && Trim(run.step.message) != "" && FinishedShows(After(run.before), text)))
  }

  predicate NoSend(run: Run) { run.Then? ==> !run.step.Send? && NoSend(run.before) }

  lemma {:induction false} RemainingKeeps(settled: seq<string>, n: nat, reload: Reload, text: string)
    requires n <= |settled| && text in settled[..n] && !reload.IsKnown(Trim(text))
    ensures text in Remaining(settled, n, reload)
  {
    var i :| 0 <= i < n && settled[i] == text;
    RemainingKeepsAt(settled, n, reload, i, Remaining(settled, n, reload));
  }

  lemma {:induction false} RemainingKeepsAt(settled: seq<string>, n: nat, reload: Reload, i: nat, kept: seq<string>)
    requires i < n <= |settled| && !reload.IsKnown(Trim(settled[i])) && kept == Remaining(settled, n, reload)
    ensures settled[i] in kept
  {
    if i < n - 1 {
      RemainingKeepsAt(settled, n - 1, reload, i, Remaining(settled, n - 1, reload));
    }
  }

  predicate MarksUnknown(settled: seq<string>, reload: Reload, keep: seq<bool>)
  {
    |keep| == |settled| && forall i :: 0 <= i < |keep| ==> (keep[i] <==> !reload.IsKnown(Trim(settled[i])))
  }

  lemma RemainingStep(settled: seq<string>, n: nat, reload: Reload, keep: bool)
    requires 0 < n <= |settled| && keep == !reload.IsKnown(Trim(settled[n - 1]))
    ensures Remaining(settled, n, reload) == Remaining(settled, n - 1, reload) + if keep then [settled[n - 1]] else []
  {
  }

  lemma {:induction false} RemainingIsFiltered(settled: seq<string>, n: nat, reload: Reload, keep: seq<bool>)
    requires n <= |settled| && MarksUnknown(settled, reload, keep)
    ensures Remaining(settled, n, reload) == Filtered(settled[..n], keep[..n])
  {
    if n > 0 {
      RemainingIsFiltered(settled, n - 1, reload, keep);
      OneMoreKept(settled, keep, n, Remaining(settled, n - 1, reload));
      RemainingStep(settled, n, reload, keep[n - 1]);
    }
  }

  /** A reload keeps exactly the archived chunks it does not know, in order. */
  lemma {:induction false} RemainingInOrder(settled: seq<string>, reload: Reload, keep: seq<bool>)
    requires MarksUnknown(settled, reload, keep)
    ensures Remaining(settled, |settled|, reload) == Filtered(settled, keep)
  {
    RemainingIsFiltered(settled, |settled|, reload, keep);
    assert settled[..|settled|] == settled && keep[..|settled|] == keep;
  }

  /** A non-blank text on the page leaves it only for a canonical copy or a message sent over it. */
  lemma OnPageStays(s: State, step: Step, text: string)
    requires OnPage(s, text) && text != "" && Trim(text) == text
    ensures OnPage(Next(s, step), text)
         || (step.Reconcile? && (step.reload.IsNew(text) || step.reload.IsKnown(text)))
         || (step.Send? && Trim(step.message) != "" && FinishedShows(s, text))
  {
    if step.Reconcile? && text in s.settled && !step.reload.IsKnown(text) {
      assert s.settled[..|s.settled|] == s.settled;
      RemainingKeeps(s.settled, |s.settled|, step.reload, text);
    }
  }

  /** No finished text is lost: in every run it is on the page, was supplied as part of a canonical
      entry, or was in the live preview when the user sent the next message. */
  lemma {:induction false} FinishedTextIsAccountedFor(run: Run, text: string)
    requires WasShownFinished(run, text) && text != ""
    ensures OnPage(After(run), text) || WasSupplied(run, text) || WasSentOver(run, text)
  {
    ShownTextIsTrimmed(run, text);
    if !FinishedShows(After(run), text) {
      FinishedTextIsAccountedFor(run.before, text);
      if OnPage(After(run.before), text) {
        OnPageStays(After(run.before), run.step, text);
      }
    }
  }

  lemma {:induction false} ShownTextIsTrimmed(run: Run, text: string)
    requires WasShownFinished(run, text)
    ensures Trim(text) == text
  {
    if FinishedShows(After(run), text) {
      TrimTwice(After(run).live.value.text);
    } else {
      ShownTextIsTrimmed(run.before, text);
    }
  }

  lemma {:induction false} NothingIsSentOver(run: Run, text: string)
    requires NoSend(run)
    ensures !WasSentOver(run, text)
  {
    if run.Then? {
      NothingIsSentOver(run.before, text);
    }
  }

  /** Without a new user message, finished text is on the page or was supplied. */
  lemma {:induction false} FinishedTextSurvives(run: Run, text: string)
    requires WasShownFinished(run, text) && text != "" && NoSend(run)
    ensures OnPage(After(run), text) || WasSupplied(run, text)
  {
    FinishedTextIsAccountedFor(run, text);
    NothingIsSentOver(run, text);
  }

  /** Sending takes a text off the page exactly when the message is not blank, the finished live
      preview shows the text, and no archived chunk does. */
  lemma {:induction false} SendingDropsIff(s: State, message: string, text: string)
    requires OnPage(s, text) && text != "" && Trim(text) == text
    ensures !OnPage(Sent(s, message), text) <==> Trim(message) != "" && FinishedShows(s, text) && text !in s.settled
  {
    TrimOfNothing();
  }

  lemma TrimOfNothing()
    ensures Trim("") == ""
  {
  }

  /** A message was sent over the text while it was neither archived nor supplied, and since then no
      finished preview showed it again and no reload supplied it. */
  predicate SentAway(run: Run, text: string)
  {
    run.Then? &&
    var s := After(run.before);
    || (run.step.Send? && Trim(run.step.message) != "" && FinishedShows(s, text) && text !in s.settled
        && !WasSupplied(run.before, text))
    || (SentAway(run.before, text) && !FinishedShows(After(run), text)
        && !(run.step.Reconcile? && (run.step.reload.IsNew(text) || run.step.reload.IsKnown(text))))
  }

  /** Shown by a finished preview once, and now neither on the page nor part of an entry supplied. */
  predicate Lost(run: Run, text: string)
  {
    WasShownFinished(run, text) && !OnPage(After(run), text) && !WasSupplied(run, text)
  }

  /** Only a finished preview that shows the text puts it among the archived chunks. */
  lemma {:induction false} ArchivedWasShown(s: State, step: Step, text: string)
    requires text in Next(s, step).settled && text !in s.settled
    ensures FinishedShows(s, text)
  {
    if step.Reconcile? {
      RemainingIsPart(s.settled, |s.settled|, step.reload);
    }
  }

  lemma {:induction false} SentAwayIsLost(run: Run, text: string)
    requires SentAway(run, text) && text != ""
    ensures Lost(run, text)
  {
    var s, step := After(run.before), run.step;
    if step.Send? && Trim(step.message) != "" && FinishedShows(s, text) && text !in s.settled && !WasSupplied(run.before, text) {
      ShownBefore(run.before, text);
      TrimOfNothing();
    } else {
      SentAwayIsLost(run.before, text);
      if text in After(run).settled {
        ArchivedWasShown(s, step, text);
      }
    }
  }

  lemma {:induction false} ShownBefore(run: Run, text: string)
    requires FinishedShows(After(run), text)
    ensures WasShownFinished(run, text)
  {
  }

  /** A finished, non-blank text is lost exactly when a message was sent over it while it was neither
      archived nor supplied, and it came back by neither way since. */
  lemma {:induction false} LostIffSentAway(run: Run, text: string)
    requires text != ""
    ensures Lost(run, text) <==> SentAway(run, text)
  {
    if SentAway(run, text) {
      SentAwayIsLost(run, text);
    }
    if Lost(run, text) {
      ShownTextIsTrimmed(run, text);
      LostIffSentAway(run.before, text);
      if OnPage(After(run.before), text) {
        OnPageStays(After(run.before), run.step, text);
        SendingDropsIff(After(run.before), run.step.message, text);
      }
    }
  }

  /** Such a loss happens: a message sent before the finished preview's entry arrived removes the
      only copy. */
  lemma {:induction false} SendingCanLoseText(text: string, message: string)
    requires text != "" && Trim(text) == text && Trim(message) != ""
    ensures Lost(Then(Then(Start, Render(text, true)), Send(message)), text)
  {
    var first := Then(Start, Render(text, true));
    assert After(first) == State(Some(Live(text, true)), []);
    assert !WasSupplied(first, text);
    LostIffSentAway(Then(first, Send(message)), text);
  }

  // --- Nothing stays behind ----------------------------------------------------------------

  /** Archived chunks always have text that a canonical entry can match. */
  predicate Matchable(s: State)
  {
    forall i :: 0 <= i < |s.settled| ==> s.settled[i] != "" && Trim(s.settled[i]) == s.settled[i]
  }

  lemma {:induction false} RemainingIsPart(settled: seq<string>, n: nat, reload: Reload)
    requires n <= |settled|
    ensures forall t :: t in Remaining(settled, n, reload) ==> t in settled && !reload.IsKnown(Trim(t))
  {
    forall t | t in Remaining(settled, n, reload)
      ensures t in settled && !reload.IsKnown(Trim(t))
    {
      RemainingWas(settled, n, reload, t);
    }
  }

  lemma {:induction false} RemainingWas(settled: seq<string>, n: nat, reload: Reload, text: string)
    requires n <= |settled| && text in Remaining(settled, n, reload)
    ensures text in settled && !reload.IsKnown(Trim(text))
  {
    if text in Remaining(settled, n - 1, reload) {
      RemainingWas(settled, n - 1, reload, text);
    } else {
      assert text == settled[n - 1];
    }
  }

  lemma StaysMatchable(s: State, step: Step)
    requires Matchable(s)
    ensures Matchable(Next(s, step))
  {
    match step
    case Render(_, _) =>
      if s.live.Some? {
        TrimTwice(s.live.value.text);
      }
    case Reconcile(reload, _) =>
      var r := Remaining(s.settled, |s.settled|, reload);
      RemainingIsPart(s.settled, |s.settled|, reload);
      forall i | 0 <= i < |r|
        ensures r[i] != "" && Trim(r[i]) == r[i]
      {
        assert r[i] in r;
      }
    case _ =>
  }

  lemma {:induction false} AlwaysMatchable(run: Run)
    ensures Matchable(After(run))
  {
    if run.Then? {
      AlwaysMatchable(run.before);
      StaysMatchable(After(run.before), run.step);
    }
  }

  /** A reload empties the preview exactly when it knows every archived text, and the text still shown is in a
      new entry or, while the worker is idle, belongs to a finished preview and is known; a preview without
      text must be finished or its worker idle. */
  lemma {:induction false} ReloadEmptiesIff(run: Run, reload: Reload, running: bool)
    ensures var s := After(run);
            After(Then(run, Reconcile(reload, running))) == EMPTY <==>
              && (forall t :: t in s.settled ==> reload.IsKnown(t))
              && (s.live.Some? ==>
                    var shown := Trim(s.live.value.text);
                    if shown == "" then s.live.value.done || !running
                    else reload.IsNew(shown) || (s.live.value.done && !running && reload.IsKnown(shown)))
  {
    var s := After(run);
    AlwaysMatchable(run);
    RemainingIsPart(s.settled, |s.settled|, reload);
    var r := Remaining(s.settled, |s.settled|, reload);
    if r == [] {
      forall t | t in s.settled
        ensures reload.IsKnown(t)
      {
        if !reload.IsKnown(Trim(t)) {
          assert s.settled[..|s.settled|] == s.settled;
          RemainingKeeps(s.settled, |s.settled|, reload, t);
        }
      }
    } else {
      assert r[0] in r;
    }
  }

  // --- What the live preview shows ----------------------------------------------------------

  /** What was last put into the preview: a rendered text, or nothing by a message sent; and whether it was
      finished then or since. */
  function LastPut(run: Run): Option<Live>
  {
    match run
    case Start => None
    case Then(_, Render(content, done)) => Some(Live(content, done))
    case Then(before, Send(message)) => if Trim(message) != "" then Some(Live("", false)) else LastPut(before)
    case Then(before, Finish) =>
      if LastPut(before).Some? then Some(Live(LastPut(before).value.text, true)) else None
    case Then(before, Reconcile(_, _)) => LastPut(before)
  }

  /** Nothing was taken off by a reload since the last text was put in. */
  predicate NotCleared(run: Run): (r: bool)
    ensures r ==> LastPut(run).Some?
  {
    match run
    case Start => false
    case Then(_, Render(_, _)) => true
    case Then(before, Send(message)) => Trim(message) != "" || NotCleared(before)
    case Then(before, Finish) => NotCleared(before)
    case Then(before, Reconcile(reload, running)) =>
      NotCleared(before)
      && var shown, done := Trim(LastPut(before).value.text), LastPut(before).value.done;
         if shown == "" then running && !done
         else !reload.IsNew(shown) && (!done || running || !reload.IsKnown(shown))
  }

  /** In every run the live preview shows what was last put in, from then on until a reload takes it off. */
  lemma {:induction false} ShownIsLastPut(run: Run)
    ensures After(run).live == if NotCleared(run) then LastPut(run) else None
  {
    if run.Then? {
      ShownIsLastPut(run.before);
    }
  }

  // --- The shared state object -----------------------------------------------------------------

  method DropSettled(settled: seq<string>, reload: Reload) returns (remaining: seq<string>)
    ensures remaining == Remaining(settled, |settled|, reload)
  {
    remaining := [];
    for n := 0 to |settled|
      invariant remaining == Remaining(settled, n, reload)
    {
      if !reload.IsKnown(Trim(settled[n])) {
        remaining := remaining + [settled[n]];
      }
    }
  }

  class ChatPreviewState {
    var shown: bool
    var done: bool
    var previewText: string
    var settledPreviews: seq<string>

    /** Without an element there is no text. */
    predicate Valid() reads this { !shown ==> previewText == "" && !done }

    function Now(): State
      reads this
    {
      State(if shown then Some(Live(previewText, done)) else None, settledPreviews)
    }

    constructor ()
      ensures Valid() && Now() == EMPTY
    {
      shown, done, previewText, settledPreviews := false, false, "", [];
    }

    method Remove()
      modifies this`shown, this`done, this`previewText
      ensures Valid() && Now() == old(Now()).(live := None)
    {
      shown, done, previewText := false, false, "";
    }

    method ArchiveDonePreview()
      requires Valid()
      modifies this
      ensures Valid() && Now() == Archived(old(Now()))
    {
      if !shown || !done {
        return;
      }
      var text := Trim(previewText);
      if text == "" {
        Remove();
        return;
      }
      settledPreviews := settledPreviews + [text];
      Remove();
    }

    method RenderChatPreview(content: string, isDone: bool)
      requires Valid()
      modifies this
      ensures Valid() && Now() == Next(old(Now()), Render(content, isDone))
    {
      ArchiveDonePreview();
      if !shown {
        shown, done := true, false;
      }
      previewText := content;
      if isDone {
        FinishChatPreview();
      } else {
        done := false;
      }
    }

    method FinishChatPreview()
      requires Valid()
      modifies this`done
      ensures Valid() && Now() == Next(old(Now()), Finish)
    {
      if shown {
        done := true;
      }
    }

    method RenderPendingChat(message: string)
      requires Valid()
      modifies this
      ensures Valid() && Now() == Next(old(Now()), Send(message))
    {
      if Trim(message) == "" {
        return;
      }
      Remove();
      shown, done := true, false;
      previewText := "";
    }

    method ReconcilePreviews(reload: Reload, running: bool)
      requires Valid()
      modifies this
      ensures Valid() && Now() == Next(old(Now()), Reconcile(reload, running))
    {
      settledPreviews := DropSettled(settledPreviews, reload);
      if !shown {
        return;
      }
      var text := Trim(previewText);
      var clearable := if text != "" then reload.IsNew(text) || (done && !running && reload.IsKnown(text))
                       else done || !running;
      if clearable {
        Remove();
      }
    }
  }
}
