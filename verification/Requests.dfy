/**
 Matching pi's responses to waiting requests (sendAndAwait, removePending, handleRPCLine and
 setError in internal/rpc/worker.go), as interleaved critical sections. The consumer takes a
 channel out of `pending` under the lock but sends on it after unlocking, so a timeout or an
 error can come in between. A channel holds one message; a send to a full one would block.
 */
module Requests {
  import opened Prelude

  datatype Message = Answer(id: nat) | Failure(id: nat)

  /** A waiter's channel: the request it was made for and what was ever sent to it. */
  datatype Channel = Channel(id: nat, sent: seq<Message>)

  /** `taken` is the channel and message between the consumer's lookup and its send. */
  datatype State = State(pending: map<nat, nat>, taken: Option<(nat, Message)>, chans: seq<Channel>)

  datatype Step =
    | Register(id: nat)
    | LookUp(id: nat)
    | SendTaken
    | FailAll
    | Withdraw(chan: nat)

  datatype Trace = Start | Then(before: Trace, step: Step)

  predicate Used(s: State, id: nat) { exists c :: 0 <= c < |s.chans| && s.chans[c].id == id }

  predicate IsPending(s: State, c: nat)
    requires c < |s.chans|
  {
    s.chans[c].id in s.pending && s.pending[s.chans[c].id] == c
  }

  predicate IsTaken(s: State, c: nat) { s.taken.Some? && s.taken.value.0 == c }

  function Received(c: Channel, m: Message): Channel { c.(sent := c.sent + [m]) }

  /** Steps that are not possible in a state leave it unchanged; request ids are never reused. */
  function After(s: State, e: Step): State
  {
    match e
    case Register(id) =>
      if Used(s, id) then s
      else s.(pending := s.pending[id := |s.chans|], chans := s.chans + [Channel(id, [])])
    case LookUp(id) =>
      if s.taken.Some? || id !in s.pending then s
      else s.(pending := s.pending - {id}, taken := Some((s.pending[id], Answer(id))))
    case SendTaken =>
      if s.taken.None? || s.taken.value.0 >= |s.chans| then s
      else
        var c := s.taken.value.0;
        if s.chans[c].sent != [] then s
        else s.(taken := None, chans := s.chans[c := Received(s.chans[c], s.taken.value.1)])
    case FailAll =>
      s.(pending := map[],
         chans := seq(|s.chans|, c requires 0 <= c < |s.chans| =>
           if IsPending(s, c) then Received(s.chans[c], Failure(s.chans[c].id)) else s.chans[c]))
    case Withdraw(c) =>
      if c >= |s.chans| then s
      else s.(pending := s.pending - {s.chans[c].id})
  }

  function Run(t: Trace): State
  {
    match t
    case Start => State(map[], None, [])
    case Then(before, e) => After(Run(before), e)
  }

  /** Where the one message for channel `c` is: not yet there, in the consumer's hand, or sent. */
  ghost predicate ChannelOk(s: State, c: nat)
    requires c < |s.chans|
  {
    var ch := s.chans[c];
    && |ch.sent| <= 1
    && (forall m :: m in ch.sent ==> m.id == ch.id)
    && (IsPending(s, c) ==> ch.sent == [] && !IsTaken(s, c))
    && (IsTaken(s, c) ==> ch.sent == [] && s.taken.value.1 == Answer(ch.id))
  }

  ghost predicate Valid(s: State)
  {
    && (forall c :: 0 <= c < |s.chans| ==> ChannelOk(s, c))
    && (forall c, d :: 0 <= c < d < |s.chans| ==> s.chans[c].id != s.chans[d].id)
    && (forall id :: id in s.pending ==> s.pending[id] < |s.chans| && s.chans[s.pending[id]].id == id)
    && (s.taken.Some? ==> s.taken.value.0 < |s.chans|)
  }

  lemma ChannelsStayOk(s: State, e: Step, c: nat)
    requires Valid(s) && c < |After(s, e).chans|
    ensures ChannelOk(After(s, e), c)
  {
    if c < |s.chans| {
      assert ChannelOk(s, c);
    }
  }

  /** The step sends on a channel that is full. */
  predicate WouldBlock(s: State, e: Step)
  {
    || (e.SendTaken? && s.taken.Some? && s.taken.value.0 < |s.chans| && s.chans[s.taken.value.0].sent != [])
    || (e.FailAll? && exists c :: 0 <= c < |s.chans| && IsPending(s, c) && s.chans[c].sent != [])
  }

  lemma SendsFindRoom(s: State, e: Step)
    requires Valid(s)
    ensures !WouldBlock(s, e)
  {
    if e.SendTaken? && s.taken.Some? {
      assert ChannelOk(s, s.taken.value.0);
    } else if e.FailAll? {
      forall c | 0 <= c < |s.chans| && IsPending(s, c)
        ensures s.chans[c].sent == []
      {
        assert ChannelOk(s, c);
      }
    }
  }

  lemma StepStaysValid(s: State, e: Step)
    requires Valid(s)
    ensures Valid(After(s, e))
  {
    var t := After(s, e);
    forall c | 0 <= c < |t.chans|
      ensures ChannelOk(t, c)
    {
      ChannelsStayOk(s, e, c);
    }
  }

  /** In every interleaving every waiter gets at most one message, and that message carries its own request id. */
  lemma {:induction false} EveryRunIsValid(t: Trace)
    ensures Valid(Run(t))
  {
    if t.Then? {
      EveryRunIsValid(t.before);
      StepStaysValid(Run(t.before), t.step);
    }
  }

  /** No step of any interleaving ever sends on a full channel. */
  lemma {:induction false} NoSendBlocks(t: Trace, e: Step)
    ensures !WouldBlock(Run(t), e)
  {
    EveryRunIsValid(t);
    SendsFindRoom(Run(t), e);
  }

  // --- What becomes of a request -------------------------------------------------------------

  datatype Fate = Unknown | Waiting | InHand | Got(message: Message) | GivenUp

  /** The request whose channel the consumer has taken and not yet sent on. */
  function Hand(t: Trace): Option<nat>
  {
    match t
    case Start => None
    case Then(before, LookUp(id)) => if Hand(before).None? && FateOf(before, id).Waiting? then Some(id) else Hand(before)
    case Then(before, SendTaken) => None
    case Then(before, _) => Hand(before)
  }

  /** What became of a request: it waits from its registration until its response is looked up, an error comes,
      or its waiter gives up, whichever is first; what was looked up is sent. */
  function FateOf(t: Trace, id: nat): Fate
  {
    match t
    case Start => Unknown
    case Then(before, e) => NextFate(FateOf(before, id), id, e, Hand(before).None?, Run(before).chans)
  }

  function NextFate(f: Fate, id: nat, e: Step, handFree: bool, chans: seq<Channel>): Fate
  {
    match e
    case Register(i) => if i == id && f.Unknown? then Waiting else f
    case LookUp(i) => if i == id && f.Waiting? && handFree then InHand else f
    case SendTaken => if f.InHand? then Got(Answer(id)) else f
    case FailAll => if f.Waiting? then Got(Failure(id)) else f
    case Withdraw(c) => if f.Waiting? && c < |chans| && chans[c].id == id then GivenUp else f
  }

  /** Channel `c` of the request shows its fate. */
  ghost predicate Shows(s: State, c: nat, f: Fate)
    requires c < |s.chans|
  {
    && (IsPending(s, c) <==> f.Waiting?) && (IsTaken(s, c) <==> f.InHand?) && !f.Unknown?
    && s.chans[c].sent == if f.Got? then [f.message] else []
  }

  ghost predicate Fated(t: Trace, s: State)
  {
    && (forall c :: 0 <= c < |s.chans| ==> Shows(s, c, FateOf(t, s.chans[c].id)))
    && (forall id :: FateOf(t, id).Unknown? <==> !Used(s, id))
    && Holds(s, Hand(t))
  }

  lemma FateStep(s: State, e: Step, c: nat, f: Fate)
    requires Valid(s) && c < |s.chans| && Shows(s, c, f)
    ensures After(s, e).chans[c].id == s.chans[c].id
    ensures Shows(After(s, e), c, NextFate(f, s.chans[c].id, e, s.taken.None?, s.chans))
  {
    assert ChannelOk(s, c);
    SendsFindRoom(s, e);
  }

  lemma NewFate(s: State, e: Step)
    requires Valid(s) && |After(s, e).chans| > |s.chans|
    ensures var u := After(s, e);
            e == Register(u.chans[|s.chans|].id) && !Used(s, e.id) && |u.chans| == |s.chans| + 1 && Shows(u, |s.chans|, Waiting)
  {
  }

  lemma UsedGrows(s: State, e: Step, id: nat)
    ensures Used(After(s, e), id) <==> Used(s, id) || e == Register(id)
  {
    var u := After(s, e);
    assert |s.chans| <= |u.chans| && forall c :: 0 <= c < |s.chans| ==> u.chans[c].id == s.chans[c].id;
    if |u.chans| > |s.chans| {
      assert u.chans[|s.chans|].id == e.id;
    }
    if Used(s, id) {
      var c :| 0 <= c < |s.chans| && s.chans[c].id == id;
      assert u.chans[c].id == id;
    }
  }

  lemma UnknownStays(f: Fate, id: nat, e: Step, handFree: bool, chans: seq<Channel>)
    ensures NextFate(f, id, e, handFree, chans).Unknown? <==> f.Unknown? && e != Register(id)
  {
  }

  /** The consumer's hand holds what `taken` says. */
  predicate Holds(s: State, hand: Option<nat>)
  {
    && (hand.None? <==> s.taken.None?)
    && (s.taken.Some? ==> s.taken.value.0 < |s.chans| && hand == Some(s.chans[s.taken.value.0].id))
  }

  lemma HandStep(s: State, e: Step, hand: Option<nat>)
    requires Valid(s) && Holds(s, hand)
    ensures var next := if e.SendTaken? then None
                        else if e.LookUp? && hand.None? && e.id in s.pending then Some(e.id) else hand;
            Holds(After(s, e), next)
  {
    SendsFindRoom(s, e);
  }

  lemma WaitsIffPending(t: Trace, s: State, id: nat)
    requires Valid(s) && Fated(t, s)
    ensures FateOf(t, id).Waiting? <==> id in s.pending
  {
    if id in s.pending {
      assert Shows(s, s.pending[id], FateOf(t, id));
    }
    if FateOf(t, id).Waiting? {
      var c :| 0 <= c < |s.chans| && s.chans[c].id == id;
      assert Shows(s, c, FateOf(t, id));
    }
  }

  /** In every interleaving each channel received exactly what the fate of its request says: the answer, one
      failure, or nothing, while it waits, is in the consumer's hand, or was given up. */
  lemma {:induction false} EveryRequestMeetsItsFate(t: Trace)
    ensures Fated(t, Run(t))
  {
    if t.Then? {
      EveryRequestMeetsItsFate(t.before);
      EveryRunIsValid(t.before);
      forall c | 0 <= c < |Run(t).chans|
        ensures Shows(Run(t), c, FateOf(t, Run(t).chans[c].id))
      {
        var s := Run(t.before);
        if c < |s.chans| {
          FateStep(s, t.step, c, FateOf(t.before, s.chans[c].id));
        } else {
          NewFate(s, t.step);
        }
      }
      forall id
        ensures FateOf(t, id).Unknown? <==> !Used(Run(t), id)
      {
        var s := Run(t.before);
        UsedGrows(s, t.step, id);
        UnknownStays(FateOf(t.before, id), id, t.step, Hand(t.before).None?, s.chans);
      }
      HandStep(Run(t.before), t.step, Hand(t.before));
      if t.step.LookUp? {
        WaitsIffPending(t.before, Run(t.before), t.step.id);
      }
    }
  }

  /** After an error nobody who registered before it and has not given up is left waiting. */
  lemma {:induction false} ErrorWakesEveryone(t: Trace, c: nat)
    requires c < |Run(t).chans| && !FateOf(t, Run(t).chans[c].id).GivenUp?
    ensures var s := Run(Then(t, FailAll));
            s.chans[c].sent != [] || IsTaken(s, c)
  {
    EveryRunIsValid(t);
    EveryRequestMeetsItsFate(t);
    assert Shows(Run(t), c, FateOf(t, Run(t).chans[c].id));
  }
}
