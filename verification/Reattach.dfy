/**
 A pi-web server that reattaches to a running holder: the frames of one connection
 (internal/rpc/holder.go) consumed by a fresh worker (internal/rpc/worker.go,
 internal/rpc/attach.go), compared with a worker that consumed all of pi's output.
 */
module Reattach {
  import opened Prelude
  import opened Wire
  import opened Holder
  import opened Stream

  /** The preview side of a worker: `replaying` until the replay-end marker. */
  datatype Viewer = Viewer(acc: Accumulator, replaying: bool, shown: seq<Preview>)

  const REATTACHED := Viewer(FRESH, true, [])

  function Saw(v: Viewer, line: Line): Viewer
  {
    if line.ReplayEndLine? then
      Viewer(v.acc, false, v.shown + CatchUp(v.acc))
    else
      var o := Consumed(v.acc, line);
      Viewer(o.acc, v.replaying, if v.replaying then v.shown else v.shown + AsSeq(o.preview))
  }

  /** The greeting is read by the handshake and never reaches the consumer. */
  function SawFrame(v: Viewer, f: Frame): Viewer
  {
    match f
    case Info(_) => v
    case Event(line) => Saw(v, line)
    case ReplayEnd => Saw(v, ReplayEndLine)
  }

  /** A viewer that started as `v`, after the first `n` frames. */
  function Watch(v: Viewer, frames: seq<Frame>, n: nat): Viewer
    requires n <= |frames|
  {
    if n == 0 then v else SawFrame(Watch(v, frames, n - 1), frames[n - 1])
  }

  function WatchAll(v: Viewer, frames: seq<Frame>): Viewer { Watch(v, frames, |frames|) }

  /** pi itself never prints the holder's marker. */
  ghost predicate NoMarker(out: seq<Line>)
  {
    forall i :: 0 <= i < |out| ==> !out[i].ReplayEndLine?
  }

  lemma {:induction false} WatchAppend(v: Viewer, a: seq<Frame>, b: seq<Frame>, n: nat)
    requires n <= |b|
    ensures n == 0 ==> Watch(v, a + b, |a| + n) == WatchAll(v, a)
    ensures Watch(v, a + b, |a| + n) == Watch(WatchAll(v, a), b, n)
    decreases |a| + n
  {
    if n > 0 {
      WatchAppend(v, a, b, n - 1);
    } else if |a| > 0 {
      WatchPrefix(v, a, b, |a|);
    }
  }

  lemma {:induction false} WatchPrefix(v: Viewer, a: seq<Frame>, b: seq<Frame>, n: nat)
    requires n <= |a|
    ensures Watch(v, a + b, n) == Watch(v, a, n)
  {
    if n > 0 {
      WatchPrefix(v, a, b, n - 1);
    }
  }

  lemma WatchOne(v: Viewer, f: Frame)
    ensures WatchAll(v, [f]) == SawFrame(v, f)
  {
    assert Watch(v, [f], 0) == v;
  }

  /** A viewer after a stretch of output without marker. */
  function Follows(v: Viewer, out: seq<Line>, from: nat, to: nat): Viewer
    requires from <= to <= |out|
  {
    Viewer(Stream.After(v.acc, out, from, to), v.replaying,
           if v.replaying then v.shown else v.shown + Shown(v.acc, out, from, to))
  }

  lemma FollowsNone(v: Viewer, out: seq<Line>, from: nat)
    requires from <= |out|
    ensures Follows(v, out, from, from) == v
  {
  }

  lemma FollowsOne(v: Viewer, out: seq<Line>, from: nat, to: nat)
    requires from < to <= |out| && NoMarker(out)
    ensures SawFrame(Follows(v, out, from, to - 1), Event(out[to - 1])) == Follows(v, out, from, to)
  {
  }

  lemma WatchOneMore(v: Viewer, before: seq<Frame>, f: Frame, all: seq<Frame>)
    requires all == before + [f]
    ensures WatchAll(v, all) == SawFrame(WatchAll(v, before), f)
  {
    WatchAppend(v, before, [f], 1);
    WatchOne(WatchAll(v, before), f);
  }

  lemma {:induction false} WatchEvents(v: Viewer, out: seq<Line>, from: nat, to: nat, events: seq<Frame>)
    requires from <= to <= |out| && NoMarker(out) && events == Events(out, from, to)
    ensures WatchAll(v, events) == Follows(v, out, from, to)
  {
    if from < to {
      var before := Events(out, from, to - 1);
      WatchEvents(v, out, from, to - 1, before);
      WatchOneMore(v, before, Event(out[to - 1]), events);
      FollowsOne(v, out, from, to);
    } else {
      FollowsNone(v, out, from);
    }
  }

  /** During replay the accumulator follows pi's output and nothing is shown. */
  lemma {:induction false} ReplayIsSilent(out: seq<Line>, switched: bool, from: nat, to: nat)
    requires from <= to <= |out| && NoMarker(out)
    ensures WatchAll(REATTACHED, [Info(switched)] + Events(out, from, to))
         == Viewer(Stream.After(FRESH, out, from, to), true, [])
  {
    WatchAppend(REATTACHED, [Info(switched)], Events(out, from, to), to - from);
    WatchOne(REATTACHED, Info(switched));
    WatchEvents(REATTACHED, out, from, to, Events(out, from, to));
  }

  lemma {:induction false} MarkerCatchesUp(replay: seq<Frame>, acc: Accumulator, live: seq<Frame>)
    requires WatchAll(REATTACHED, replay) == Viewer(acc, true, [])
    ensures WatchAll(REATTACHED, replay + [ReplayEnd] + live) == WatchAll(Viewer(acc, false, CatchUp(acc)), live)
  {
    WatchAppend(REATTACHED, replay + [ReplayEnd], live, |live|);
    WatchAppend(REATTACHED, replay, [ReplayEnd], 1);
    WatchOne(Viewer(acc, true, []), ReplayEnd);
    assert [] + CatchUp(acc) == CatchUp(acc);
  }

  /** What a reattached worker shows of the slice its connection saw: nothing before the
      marker, at most one catch-up snapshot at it, then every preview of the live part. */
  lemma {:induction false} ReattachedShows(out: seq<Line>, sl: Slice)
    requires Fits(sl, |out|) && NoMarker(out)
    ensures var caughtUp := Stream.After(FRESH, out, sl.at, sl.mark);
            WatchAll(REATTACHED, FramesOf(out, sl)).shown ==
              if sl.stage.Attached? then CatchUp(caughtUp) + Shown(caughtUp, out, sl.mark, sl.to) else []
  {
    ReplayIsSilent(out, sl.switched, sl.at, sl.mark);
    if sl.stage.Attached? {
      var acc := Stream.After(FRESH, out, sl.at, sl.mark);
      MarkerCatchesUp([Info(sl.switched)] + Events(out, sl.at, sl.mark), acc, Events(out, sl.mark, sl.to));
      WatchEvents(Viewer(acc, false, CatchUp(acc)), out, sl.mark, sl.to, Events(out, sl.mark, sl.to));
    }
  }

  function CatchUp(a: Accumulator): seq<Preview> { if a.Empty() then [] else [a.Snapshot(false)] }

  /** The previews of out[x..to] shown by a worker that consumed everything from the start. */
  function NeverDisconnected(out: seq<Line>, x: nat, to: nat): seq<Preview>
    requires x <= to <= |out|
  {
    Shown(Stream.After(FRESH, out, 0, x), out, x, to)
  }

  /** By line `x` the reattached worker has caught up: some message closed since its slice
      began, or its slice began between messages. */
  ghost predicate InStep(out: seq<Line>, sl: Slice, x: nat)
    requires Fits(sl, |out|) && sl.at <= x <= sl.to
  {
    ClosesWithin(out, sl.at, x) || Stream.After(FRESH, out, 0, sl.at).Empty()
  }

  lemma InStepMeansEqual(out: seq<Line>, sl: Slice, x: nat)
    requires Fits(sl, |out|) && sl.at <= x <= sl.to && InStep(out, sl, x)
    ensures Stream.After(FRESH, out, sl.at, x) == Stream.After(FRESH, out, 0, x)
  {
    AfterSplits(FRESH, out, 0, sl.at, x);
    CloseResynchronises(FRESH, Stream.After(FRESH, out, 0, sl.at), out, sl.at, x);
  }

  lemma {:induction false} InStepShowsTheSame(out: seq<Line>, sl: Slice, x: nat)
    requires Fits(sl, |out|) && NoMarker(out) && sl.stage.Attached?
    requires sl.mark <= x <= sl.to && InStep(out, sl, x)
    ensures var caughtUp := Stream.After(FRESH, out, sl.at, sl.mark);
            CatchUp(caughtUp) + Shown(caughtUp, out, sl.mark, sl.to)
            == CatchUp(caughtUp) + Shown(caughtUp, out, sl.mark, x) + NeverDisconnected(out, x, sl.to)
  {
    var caughtUp := Stream.After(FRESH, out, sl.at, sl.mark);
    InStepMeansEqual(out, sl, x);
    AfterSplits(FRESH, out, sl.at, sl.mark, x);
    EqualStartsShowTheSame(caughtUp, Stream.After(FRESH, out, 0, x), out, sl.mark, x, sl.to);
  }

  /**
   End to end, over every run of the holder: any connection whose replay completed makes the
   server show, from any point `x` at which it is in step, exactly the previews of a server
   that was never restarted; before that it shows at most the catch-up and, once live, its
   own previews. A connection whose replay did not complete shows nothing.
   */
  lemma {:induction false} ReattachingShowsTheSamePreviews(t: Trace, frames: seq<Frame>) returns (sl: Slice)
    requires Got(Received(Run(t)), frames) && NoMarker(Output(t))
    ensures Fits(sl, |Output(t)|) && frames == FramesOf(Output(t), sl)
    ensures !sl.stage.Attached? ==> WatchAll(REATTACHED, frames).shown == []
    ensures sl.stage.Attached? ==>
              var caughtUp := Stream.After(FRESH, Output(t), sl.at, sl.mark);
              forall x | sl.mark <= x <= sl.to && InStep(Output(t), sl, x) ::
                WatchAll(REATTACHED, frames).shown
                == CatchUp(caughtUp) + Shown(caughtUp, Output(t), sl.mark, x) + NeverDisconnected(Output(t), x, sl.to)
  {
    sl := ConnectionSeesOneStretch(t, frames);
    ReattachedShows(Output(t), sl);
    if sl.stage.Attached? {
      forall x | sl.mark <= x <= sl.to && InStep(Output(t), sl, x) {
        InStepShowsTheSame(Output(t), sl, x);
      }
    }
  }

  /** The one catch-up preview: the message under way at the marker, as far as the slice has it. */
  ghost function CaughtUp(out: seq<Line>, sl: Slice): seq<Preview>
    requires Fits(sl, |out|)
  {
    var start := StartOf(out, sl.at, sl.mark);
    if Silent(out, start, sl.mark) then [] else [SoFar(out, start, sl.mark, false)]
  }

  lemma CatchUpIsTheMessageSoFar(out: seq<Line>, sl: Slice)
    requires Fits(sl, |out|)
    ensures CatchUp(Stream.After(FRESH, out, sl.at, sl.mark)) == CaughtUp(out, sl)
  {
    HeldSoFar(FRESH, out, sl.at, StartOf(out, sl.at, sl.mark), sl.mark);
  }

  /** End to end again, in terms of pi's output alone: a connection whose replay completed makes the server
      show the text and reasoning of the message under way at the marker, if it has any, and from there
      every preview that is due to who reads from the connection's first line on; a server that was never
      restarted shows what is due to who reads from the first line of all. */
  lemma {:induction false} ReattachingShowsWhatIsDue(t: Trace, frames: seq<Frame>) returns (sl: Slice)
    requires Got(Received(Run(t)), frames) && NoMarker(Output(t))
    ensures Fits(sl, |Output(t)|) && frames == FramesOf(Output(t), sl)
    ensures WatchAll(REATTACHED, frames).shown ==
              if sl.stage.Attached? then CaughtUp(Output(t), sl) + AllDue(Output(t), sl.at, sl.mark, sl.to) else []
    ensures forall x | sl.mark <= x <= sl.to :: NeverDisconnected(Output(t), x, sl.to) == AllDue(Output(t), 0, x, sl.to)
  {
    var out := Output(t);
    sl := ConnectionSeesOneStretch(t, frames);
    ReattachedShows(out, sl);
    CatchUpIsTheMessageSoFar(out, sl);
    FreshShowsWhatIsDue(out, sl.at, sl.mark, sl.to);
    forall x | sl.mark <= x <= sl.to
      ensures NeverDisconnected(out, x, sl.to) == AllDue(out, 0, x, sl.to)
    {
      FreshShowsWhatIsDue(out, 0, x, sl.to);
    }
  }

  /** Nothing is shown before the marker, in every run and for every prefix of what arrives. */
  lemma {:induction false} SilentUntilMarker(frames: seq<Frame>, n: nat)
    requires n <= |frames|
    requires forall i :: 0 <= i < n ==> !frames[i].ReplayEnd? && frames[i] != Event(ReplayEndLine)
    ensures Watch(REATTACHED, frames, n).shown == [] && Watch(REATTACHED, frames, n).replaying
  {
    if n > 0 {
      SilentUntilMarker(frames, n - 1);
    }
  }
}
