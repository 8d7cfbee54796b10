/** The server's side of one pi process (internal/rpc/worker.go). */
module Worker {
  import opened Prelude
  import opened Wire
  import opened Stream
  import opened Reattach

  datatype Status = Idle | Running | Failed(error: string)

  /** A Go channel of capacity one: sending to a full one would block. */
  class ResponseChan {
    var buffer: Option<Line>

    constructor ()
      ensures buffer == None
    {
      buffer := None;
    }

    method Send(res: Line)
      requires buffer.None?
      modifies this
      ensures buffer == Some(res)
    {
      buffer := Some(res);
    }
  }

  class PiRpcWorker {
    const hasSink: bool
    const streamPreview: StreamPreviewAccumulator
    var replaying: bool
    var shown: seq<Preview>  // what the sink was called with
    var status: Status
    var thinkingLevel: string
    var streamActivity: int  // when the stream last moved, 0 for not since the agent ended
    var pending: map<string, ResponseChan>

    ghost predicate Valid()
      reads this, pending.Values
    {
      && (forall id :: id in pending ==> pending[id].buffer.None?)
      && (forall id, id' :: id in pending && id' in pending && id != id' ==> pending[id] != pending[id'])
    }

    ghost function Value(): Viewer
      reads this, streamPreview
    {
      Viewer(streamPreview.Value(), replaying, shown)
    }

    constructor Reattach(hasSink: bool)
      ensures Valid() && fresh(streamPreview) && pending == map[]
      ensures Value() == REATTACHED && status == Idle && this.hasSink == hasSink
    {
      this.hasSink := hasSink;
      streamPreview := new StreamPreviewAccumulator();
      replaying, shown, status, thinkingLevel, streamActivity, pending := true, [], Idle, "", 0, map[];
    }

    method Show(preview: Option<Preview>)
      modifies this`shown
      ensures shown == if replaying then old(shown) else old(shown) + AsSeq(preview)
    {
      if preview.Some? && !replaying {
        shown := shown + [preview.value];
      }
    }

    /**
     One line of pi's output. With a sink the preview state moves as `Saw` says, without one
     it stands still; a response reaches exactly the waiter registered under its id.
     */
    method HandleRpcLine(line: Line, now: int)
      requires Valid()
      modifies this, streamPreview, pending.Values
      ensures Valid()
      ensures hasSink ==> Value() == old(Saw(Value(), line))
      ensures !hasSink ==> Value() == old(Value()).(replaying := old(replaying) && !line.ReplayEndLine?)
      ensures status == if line.AgentEnd? then Idle else old(status)
      ensures thinkingLevel == if line.ThinkingLevelChanged? && line.level != "" then line.level else old(thinkingLevel)
      ensures streamActivity ==
                if line.MessageUpdate? || line.MessageEnd? || line.TurnEnd? then now
                else if line.AgentEnd? then 0
                else old(streamActivity)
      ensures pending == if line.Response? then old(pending) - {line.id} else old(pending)
      ensures forall id :: id in old(pending) ==>
        old(pending)[id].buffer == if line.Response? && line.id == id then Some(line) else None
    {
      match line
      case Response(id, _, _) =>
        if id in pending {
          var ch := pending[id];
          pending := pending - {id};
          ch.Send(line);
        }
      case MessageUpdate(event) =>
        if hasSink {
          var preview := streamPreview.HandleAssistantEvent(event);
          Show(preview);
        }
        streamActivity := now;
      case ReplayEndLine =>
        replaying := false;
        if hasSink && !streamPreview.Value().Empty() {
          shown := shown + [streamPreview.Value().Snapshot(false)];
        }
      case ThinkingLevelChanged(level) =>
        if level != "" {
          thinkingLevel := level;
        }
      case Other(_) =>
      case MessageEnd =>
        streamActivity := now;
        CompletePreview();
      case TurnEnd =>
        streamActivity := now;
        CompletePreview();
      case AgentEnd =>
        CompletePreview();
        status := Idle;
        streamActivity := 0;
    }

    method CompletePreview()
      modifies this`shown, streamPreview
      ensures hasSink ==> Value() == old(Saw(Value(), MessageEnd))
      ensures !hasSink ==> Value() == old(Value())
    {
      if hasSink {
        var preview := streamPreview.Complete();
        Show(preview);
      }
    }

    /** Registers a waiter under a request id that has never been used before. */
    method Register(id: string) returns (ch: ResponseChan)
      requires Valid()
      modifies this`pending
      ensures Valid() && fresh(ch) && ch.buffer == None
      ensures pending == old(pending)[id := ch]
    {
      ch := new ResponseChan();
      pending := pending[id := ch];
    }

    method RemovePending(id: string)
      requires Valid()
      modifies this`pending
      ensures Valid() && pending == old(pending) - {id}
    {
      pending := pending - {id};
    }

    /** The process died: every waiter gets one failure carrying its own request id. */
    method SetError(error: string)
      requires Valid()
      modifies this`status, this`pending, pending.Values
      ensures Valid() && pending == map[]
      ensures status == if old(status).Failed? then old(status) else Failed(error)
      ensures forall id :: id in old(pending) ==> old(pending)[id].buffer == Some(Response(id, false, error))
    {
      if !status.Failed? {
        status := Failed(error);
      }
      FailAll(error);
    }

    /** Sends every waiter a failure and forgets it. */
    method FailAll(error: string)
      requires Valid()
      modifies this`pending, pending.Values
      ensures Valid() && pending == map[]
      ensures forall id :: id in old(pending) ==> old(pending)[id].buffer == Some(Response(id, false, error))
    {
      while pending != map[]
        invariant pending.Keys <= old(pending).Keys
        invariant forall id :: id in pending ==> pending[id] == old(pending)[id] && pending[id].buffer.None?
        invariant forall id :: id in old(pending) && id !in pending ==>
          old(pending)[id].buffer == Some(Response(id, false, error))
        decreases |pending|
      {
        var id :| id in pending;
        var ch := pending[id];
        pending := pending - {id};
        ch.Send(Response(id, false, error));
      }
    }
  }
}
