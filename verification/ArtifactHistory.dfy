/**
 What a session's files hold, told backwards from each path: which write, edit, move or removal decides
 (web/src/session/artifacts/artifact-registry.js). The fold that the registry is proved against agrees.
 */
module ArtifactHistory {
  import opened Prelude
  import opened Text
  import opened Shell
  import opened Artifacts

  /** One thing that happens to the files. */
  datatype Effect = Put(path: string, content: string) | Change(path: string, edits: seq<Edit>) | Gone(path: string)
                  | Rename(from: string, to: string)

  /** What the path holds after the first `k` effects. */
  function Held(es: seq<Effect>, k: nat, p: string): Option<string>
    requires k <= |es|
  {
    if k == 0 then None
    else
      match es[k - 1]
      case Put(path, content) => if path == p then Some(content) else Held(es, k - 1, p)
      case Change(path, edits) =>
        var was := Held(es, k - 1, p);
        if path == p && was.Some? then Some(AfterEdits(was.value, edits, |edits|)) else was
      case Gone(path) => if path == p then None else Held(es, k - 1, p)
      case Rename(from, to) =>
        var moved := Held(es, k - 1, from);
        if moved.None? || from == to then Held(es, k - 1, p)
        else if p == to then moved
        else if p == from then None
        else Held(es, k - 1, p)
  }

  /** How many of the first `k` effects moved a file onto another. */
  function Overwriting(es: seq<Effect>, k: nat): nat
    requires k <= |es|
  {
    if k == 0 then 0
    else
      Overwriting(es, k - 1) +
        if es[k - 1].Rename? && es[k - 1].from != es[k - 1].to
           && Held(es, k - 1, es[k - 1].from).Some? && Held(es, k - 1, es[k - 1].to).Some? then 1
        else 0
  }

  // --- The effects of a session -------------------------------------------------------------

  function OpEffects(ops: seq<FileOp>): (r: seq<Effect>)
    ensures |r| == |ops|
  {
    seq(|ops|, i requires 0 <= i < |ops| => if ops[i].Remove? then Gone(ops[i].path) else Rename(ops[i].from, ops[i].to))
  }

  /** A path that is there and not blank. */
  predicate Named(path: Option<string>) { path.Some? && Trim(path.value) != "" }

  /** Writes and edits count as soon as they are called, commands only when they succeeded. */
  function CallEffects(tool: Tool, succeeded: bool): seq<Effect>
  {
    match tool
    case Write(path, content) => if Named(path) && content.Some? then [Put(path.value, content.value)] else []
    case EditFile(path, edits) => if Named(path) then [Change(path.value, edits)] else []
    case Bash(command) => if succeeded then OpEffects(FileOps(command)) else []
    case OtherTool => []
  }

  function BlockEffects(all: seq<Entry>, blocks: seq<Block>, n: nat): seq<Effect>
    requires n <= |blocks|
  {
    if n == 0 then []
    else
      BlockEffects(all, blocks, n - 1) +
        if blocks[n - 1].Call? then CallEffects(blocks[n - 1].tool, Succeeded(all, |all|, blocks[n - 1].id)) else []
  }

  function EntryEffects(all: seq<Entry>, e: Entry): seq<Effect>
  {
    if e.Assistant? then BlockEffects(all, e.blocks, |e.blocks|)
    else if e.UserBash? && e.succeeded then OpEffects(FileOps(e.command))
    else []
  }

  /** What the first `n` entries did to the files, in order. */
  function Effects(all: seq<Entry>, n: nat): seq<Effect>
    requires n <= |all|
  {
    if n == 0 then [] else Effects(all, n - 1) + EntryEffects(all, all[n - 1])
  }

  // --- The fold agrees ------------------------------------------------------------------------

  function Lookup(m: map<string, string>, p: string): Option<string> { if p in m then Some(m[p]) else None }

  ghost predicate Agrees(f: Files, es: seq<Effect>)
  {
    && (forall p :: Lookup(f.contents, p) == Held(es, |es|, p))
    && f.overwrites == Overwriting(es, |es|)
  }

  lemma {:induction false} HeldBefore(a: seq<Effect>, b: seq<Effect>, k: nat, p: string)
    requires k <= |a| && k <= |b| && forall i :: 0 <= i < k ==> a[i] == b[i]
    ensures Held(a, k, p) == Held(b, k, p)
  {
    if k > 0 {
      HeldBefore(a, b, k - 1, p);
      if a[k - 1].Rename? {
        HeldBefore(a, b, k - 1, a[k - 1].from);
      }
    }
  }

  lemma {:induction false} OverwritingBefore(a: seq<Effect>, b: seq<Effect>, k: nat)
    requires k <= |a| && k <= |b| && forall i :: 0 <= i < k ==> a[i] == b[i]
    ensures Overwriting(a, k) == Overwriting(b, k)
  {
    if k > 0 {
      OverwritingBefore(a, b, k - 1);
      if a[k - 1].Rename? {
        HeldBefore(a, b, k - 1, a[k - 1].from);
        HeldBefore(a, b, k - 1, a[k - 1].to);
      }
    }
  }

  /** Knowing the files before, what the next effect makes of each path. */
  lemma {:induction false} HeldNext(f: Files, es: seq<Effect>, x: Effect, p: string)
    requires Agrees(f, es)
    ensures var n := |es|;
            Held(es + [x], n + 1, p) ==
              match x
              case Put(path, content) => if path == p then Some(content) else Lookup(f.contents, p)
              case Change(path, edits) =>
                if path == p && p in f.contents then Some(AfterEdits(f.contents[p], edits, |edits|)) else Lookup(f.contents, p)
              case Gone(path) => if path == p then None else Lookup(f.contents, p)
              case Rename(from, to) =>
                if from !in f.contents || from == to then Lookup(f.contents, p)
                else if p == to then Lookup(f.contents, from)
                else if p == from then None
                else Lookup(f.contents, p)
  {
    HeldBefore(es + [x], es, |es|, p);
    assert Lookup(f.contents, p) == Held(es, |es|, p);
    if x.Rename? {
      HeldBefore(es + [x], es, |es|, x.from);
      assert Lookup(f.contents, x.from) == Held(es, |es|, x.from);
    }
  }

  lemma {:induction false} OverwritingNext(f: Files, es: seq<Effect>, x: Effect)
    requires Agrees(f, es)
    ensures Overwriting(es + [x], |es| + 1) ==
              f.overwrites + if x.Rename? && x.from != x.to && x.from in f.contents && x.to in f.contents then 1 else 0
  {
    OverwritingBefore(es + [x], es, |es|);
    if x.Rename? {
      HeldBefore(es + [x], es, |es|, x.from);
      HeldBefore(es + [x], es, |es|, x.to);
      assert Lookup(f.contents, x.from) == Held(es, |es|, x.from);
      assert Lookup(f.contents, x.to) == Held(es, |es|, x.to);
    }
  }

  lemma {:induction false} OpAgrees(f: Files, es: seq<Effect>, op: FileOp, x: Effect)
    requires Agrees(f, es) && [x] == OpEffects([op])
    ensures Agrees(AfterOp(f, op), es + [x])
  {
    assert x == OpEffects([op])[0];
    forall p
      ensures Lookup(AfterOp(f, op).contents, p) == Held(es + [x], |es| + 1, p)
    {
      HeldNext(f, es, x, p);
    }
    OverwritingNext(f, es, x);
  }

  lemma {:induction false} OpsAgree(f: Files, es: seq<Effect>, ops: seq<FileOp>, n: nat)
    requires n <= |ops| && Agrees(f, es)
    ensures Agrees(AfterOps(f, ops, n), es + OpEffects(ops)[..n])
  {
    if n > 0 {
      var x := OpEffects(ops)[n - 1];
      OpsAgree(f, es, ops, n - 1);
      assert [x] == OpEffects([ops[n - 1]]);
      OpAgrees(AfterOps(f, ops, n - 1), es + OpEffects(ops)[..n - 1], ops[n - 1], x);
      assert es + OpEffects(ops)[..n - 1] + [x] == es + OpEffects(ops)[..n];
    } else {
      assert es + OpEffects(ops)[..0] == es;
    }
  }

  lemma {:induction false} CommandAgrees(f: Files, es: seq<Effect>, command: string)
    requires Agrees(f, es)
    ensures Agrees(AfterCommand(f, command), es + OpEffects(FileOps(command)))
  {
    var ops := FileOps(command);
    OpsAgree(f, es, ops, |ops|);
    assert OpEffects(ops)[..|ops|] == OpEffects(ops);
  }

  lemma {:induction false} PutAgrees(f: Files, es: seq<Effect>, path: string, content: string)
    requires Agrees(f, es)
    ensures Agrees(f.(contents := f.contents[path := content]), es + [Put(path, content)])
  {
    var after := f.contents[path := content];
    forall p
      ensures Lookup(after, p) == Held(es + [Put(path, content)], |es| + 1, p)
    {
      HeldNext(f, es, Put(path, content), p);
    }
    OverwritingNext(f, es, Put(path, content));
  }

  lemma {:induction false} ChangeAgrees(f: Files, es: seq<Effect>, path: string, edits: seq<Edit>)
    requires Agrees(f, es)
    ensures var after := if path in f.contents then f.contents[path := AfterEdits(f.contents[path], edits, |edits|)] else f.contents;
            Agrees(f.(contents := after), es + [Change(path, edits)])
  {
    var after := if path in f.contents then f.contents[path := AfterEdits(f.contents[path], edits, |edits|)] else f.contents;
    forall p
      ensures Lookup(after, p) == Held(es + [Change(path, edits)], |es| + 1, p)
    {
      HeldNext(f, es, Change(path, edits), p);
    }
    OverwritingNext(f, es, Change(path, edits));
  }

  lemma {:induction false} CallAgrees(f: Files, es: seq<Effect>, tool: Tool, succeeded: bool)
    requires Agrees(f, es)
    ensures Agrees(AfterCall(f, tool, succeeded), es + CallEffects(tool, succeeded))
  {
    assert es + [] == es;
    match tool
    case Write(path, content) =>
      if Named(path) && content.Some? {
        PutAgrees(f, es, path.value, content.value);
      }
    case EditFile(path, edits) =>
      if Named(path) {
        ChangeAgrees(f, es, path.value, edits);
      }
    case Bash(command) => CommandAgrees(f, es, command);
    case OtherTool =>
  }

  lemma {:induction false} Regroup(a: seq<Effect>, b: seq<Effect>, c: seq<Effect>)
    ensures a + b + c == a + (b + c)
  {
  }

  lemma {:induction false} BlocksAgree(f: Files, es: seq<Effect>, all: seq<Entry>, blocks: seq<Block>, n: nat)
    requires n <= |blocks| && Agrees(f, es)
    ensures Agrees(AfterBlocks(f, all, blocks, n), es + BlockEffects(all, blocks, n))
  {
    if n > 0 {
      var b, before := blocks[n - 1], BlockEffects(all, blocks, n - 1);
      BlocksAgree(f, es, all, blocks, n - 1);
      if b.Call? {
        var succeeded := Succeeded(all, |all|, b.id);
        CallAgrees(AfterBlocks(f, all, blocks, n - 1), es + before, b.tool, succeeded);
        Regroup(es, before, CallEffects(b.tool, succeeded));
      } else {
        assert before + [] == before;
      }
    } else {
      assert es + [] == es;
    }
  }

  lemma {:induction false} EntryAgrees(f: Files, es: seq<Effect>, all: seq<Entry>, e: Entry)
    requires Agrees(f, es)
    ensures Agrees(AfterEntry(f, all, e), es + EntryEffects(all, e))
  {
    assert es + [] == es;
    match e
    case Assistant(_, blocks) => BlocksAgree(f, es, all, blocks, |blocks|);
    case UserBash(command, succeeded) =>
      if succeeded {
        CommandAgrees(f, es, command);
      }
    case _ =>
  }

  lemma {:induction false} ReplayedAgrees(all: seq<Entry>, n: nat)
    requires n <= |all|
    ensures Agrees(Replayed(all, n), Effects(all, n))
  {
    if n > 0 {
      ReplayedAgrees(all, n - 1);
      EntryAgrees(Replayed(all, n - 1), Effects(all, n - 1), all, all[n - 1]);
    }
  }

  /** For every session: each path holds what its last write, edit or move left there, and as many files were
      moved onto others as the replay counts. */
  lemma {:induction false} ReplayedIsHeld(all: seq<Entry>, p: string)
    ensures var files, effects := Replayed(all, |all|), Effects(all, |all|);
            && Lookup(files.contents, p) == Held(effects, |effects|, p)
            && files.overwrites == Overwriting(effects, |effects|)
  {
    ReplayedAgrees(all, |all|);
  }
}
