/**
 The virtual file system rebuilt from a session's tool calls
 (web/src/session/artifacts/artifact-registry.js): artifact objects are shared between the
 order of first appearance and the map by path, and mutated in place.
 */
module Artifacts {
  import opened Prelude
  import opened Text
  import opened Shell

  // --- Edits ---------------------------------------------------------------------

  datatype Edit = Edit(oldText: string, newText: string)

  /** Replaces the first match; an empty or missing old text leaves the content alone. */
  function AfterEdit(content: string, e: Edit): string
  {
    var at := IndexFrom(content, e.oldText, 0);
    if e.oldText == "" || at.None? then content
    else content[..at.value] + e.newText + content[at.value + |e.oldText|..]
  }

  function AfterEdits(content: string, es: seq<Edit>, n: nat): string
    requires n <= |es|
  {
    if n == 0 then content else AfterEdit(AfterEdits(content, es, n - 1), es[n - 1])
  }

  /** The first occurrence of the old text gives way to the new one; an empty old text, or one that does not
      occur, changes nothing. */
  ghost predicate FirstReplaced(before: string, e: Edit, after: string)
  {
    if e.oldText == "" || forall i :: 0 <= i <= |before| ==> !OccursAt(before, e.oldText, i) then after == before
    else exists i :: 0 <= i <= |before| && ReplacedAt(before, e, after, i)
  }

  ghost predicate ReplacedAt(before: string, e: Edit, after: string, i: nat)
    requires i <= |before|
  {
    && OccursAt(before, e.oldText, i) && (forall j :: 0 <= j < i ==> !OccursAt(before, e.oldText, j))
    && |after| == |before| - |e.oldText| + |e.newText|
    && after[..i] == before[..i] && after[i..i + |e.newText|] == e.newText
    && after[i + |e.newText|..] == before[i + |e.oldText|..]
  }

  lemma {:induction false} EditReplacesTheFirst(before: string, e: Edit)
    ensures FirstReplaced(before, e, AfterEdit(before, e))
  {
    var at := IndexFrom(before, e.oldText, 0);
    if e.oldText != "" && at.Some? {
      assert ReplacedAt(before, e, AfterEdit(before, e), at.value);
      assert OccursAt(before, e.oldText, at.value);
    }
  }

  /** The edits lead from one content to the other, each applied to what the one before left. */
  ghost predicate EditedTo(content: string, es: seq<Edit>, n: nat, out: string)
    requires n <= |es|
  {
    if n == 0 then out == content
    else
      var k, e := n - 1, es[n - 1];
      exists mid :: EditedTo(content, es, k, mid) && FirstReplaced(mid, e, out)
  }

  lemma {:induction false} EditsInOrder(content: string, es: seq<Edit>, n: nat)
    requires n <= |es|
    ensures EditedTo(content, es, n, AfterEdits(content, es, n))
  {
    if n > 0 {
      EditsInOrder(content, es, n - 1);
      EditReplacesTheFirst(AfterEdits(content, es, n - 1), es[n - 1]);
    }
  }

  method ApplyEdits(content: string, edits: seq<Edit>) returns (out: string)
    ensures out == AfterEdits(content, edits, |edits|)
  {
    out := content;
    for n := 0 to |edits|
      invariant out == AfterEdits(content, edits, n)
    {
      var e := edits[n];
      if e.oldText != "" {
        var i := IndexFrom(out, e.oldText, 0);
        if i.Some? {
          out := out[..i.value] + e.newText + out[i.value + |e.oldText|..];
        }
      }
    }
  }

  // --- The session, as far as artifacts go -------------------------------------------

  datatype Tool =
    | Write(path: Option<string>, content: Option<string>)
    | EditFile(path: Option<string>, edits: seq<Edit>)
    | Bash(command: string)
    | OtherTool

  datatype Block = Call(id: string, tool: Tool) | Snippet(content: string) | OtherBlock

  datatype Entry =
    | Assistant(id: string, blocks: seq<Block>)
    | UserBash(command: string, succeeded: bool)
    | ToolResult(callId: string, isError: bool)
    | OtherEntry

  /** A call counts once its result landed without error; the last result for an id decides. */
  function Succeeded(es: seq<Entry>, n: nat, callId: string): bool
    requires n <= |es|
  {
    n > 0 &&
    (if es[n - 1].ToolResult? && es[n - 1].callId == callId then !es[n - 1].isError
     else Succeeded(es, n - 1, callId))
  }

  // --- A plain file system -----------------------------------------------------------

  /** Contents by path, and how often a move landed on a path already there. */
  datatype Files = Files(contents: map<string, string>, overwrites: nat)

  function AfterOp(f: Files, op: FileOp): Files
  {
    match op
    case Remove(p) => f.(contents := f.contents - {p})
    case Move(from, to) =>
      if from == to || from !in f.contents then f
      else Files((f.contents - {from})[to := f.contents[from]], f.overwrites + if to in f.contents then 1 else 0)
  }

  function AfterOps(f: Files, ops: seq<FileOp>, n: nat): Files
    requires n <= |ops|
  {
    if n == 0 then f else AfterOp(AfterOps(f, ops, n - 1), ops[n - 1])
  }

  function AfterCommand(f: Files, command: string): Files
  {
    AfterOps(f, FileOps(command), |FileOps(command)|)
  }

  predicate Usable(path: Option<string>) { path.Some? && Trim(path.value) != "" }

  function AfterCall(f: Files, tool: Tool, succeeded: bool): Files
  {
    match tool
    case Write(path, content) =>
      if Usable(path) && content.Some? then f.(contents := f.contents[path.value := content.value]) else f
    case EditFile(path, edits) =>
      if Usable(path) && path.value in f.contents then
        f.(contents := f.contents[path.value := AfterEdits(f.contents[path.value], edits, |edits|)])
      else f
    case Bash(command) => if succeeded then AfterCommand(f, command) else f
    case OtherTool => f
  }

  /** A call counts exactly when the last result that answers it is no error; without one it does not. */
  lemma {:induction false} SucceededIff(es: seq<Entry>, n: nat, callId: string)
    requires n <= |es|
    ensures Succeeded(es, n, callId) <==>
              exists i :: 0 <= i < n && Answers(es[i], callId) && !es[i].isError
                          && forall j :: i < j < n ==> !Answers(es[j], callId)
  {
    if n > 0 {
      SucceededIff(es, n - 1, callId);
      if Answers(es[n - 1], callId) {
        assert es[n - 1].ToolResult?;
      } else if Succeeded(es, n - 1, callId) {
        var i :| 0 <= i < n - 1 && Answers(es[i], callId) && !es[i].isError && forall j :: i < j < n - 1 ==> !Answers(es[j], callId);
        assert forall j :: i < j < n ==> !Answers(es[j], callId);
      }
    }
  }

  predicate Answers(e: Entry, callId: string) { e.ToolResult? && e.callId == callId }

  function AfterBlocks(f: Files, all: seq<Entry>, blocks: seq<Block>, n: nat): Files
    requires n <= |blocks|
  {
    if n == 0 then f
    else
      var g := AfterBlocks(f, all, blocks, n - 1);
      var b := blocks[n - 1];
      if b.Call? then AfterCall(g, b.tool, Succeeded(all, |all|, b.id)) else g
  }

  /** The files after the first `n` entries of `all`. */
  function Replayed(all: seq<Entry>, n: nat): Files
    requires n <= |all|
  {
    if n == 0 then Files(map[], 0) else AfterEntry(Replayed(all, n - 1), all, all[n - 1])
  }

  function AfterEntry(f: Files, all: seq<Entry>, e: Entry): Files
  {
    match e
    case Assistant(_, blocks) => AfterBlocks(f, all, blocks, |blocks|)
    case UserBash(command, succeeded) => if succeeded then AfterCommand(f, command) else f
    case _ => f
  }

  lemma ReplacingIsEnough(m: map<string, string>, from: string, to: string)
    requires from in m && from != to
    ensures (m - {to} - {from})[to := m[from]] == (m - {from})[to := m[from]]
  {
  }

  // --- The registry --------------------------------------------------------------

  class Artifact {
    const isFile: bool  // false for a snippet
    var filePath: string
    var title: string
    var content: string
    var removed: bool

    constructor File(filePath: string, content: string)
      ensures isFile && this.filePath == filePath && title == Basename(filePath)
      ensures this.content == content && !removed
    {
      isFile, this.filePath, title, this.content, removed := true, filePath, Basename(filePath), content, false;
    }

    constructor Snippet(content: string)
      ensures !isFile && this.content == content && !removed
    {
      isFile, filePath, title, this.content, removed := false, "", "snippet", content, false;
    }
  }

  class Registry {
    var order: seq<Artifact>
    var byPath: map<string, Artifact>
    ghost var fs: Files                 // the plain file system the map stands for
    ghost var files: set<Artifact>      // every file artifact ever made
    ghost var displaced: set<Artifact>  // those a move landed on: off the map, but not removed

    ghost predicate OnMap(a: Artifact)
      reads this, a
    {
      a.filePath in byPath && byPath[a.filePath] == a
    }

    /** What a path on the map leads to: a live artifact that knows the path, holding its content. */
    ghost predicate PathOk(p: string)
      reads this, files
      requires p in byPath
    {
      var a := byPath[p];
      a in files && a.filePath == p && a.title == Basename(p) && !a.removed
      && p in fs.contents && a.content == fs.contents[p]
    }

    /** A file that was not removed is either displaced or on the map. */
    ghost predicate FileOk(a: Artifact)
      reads this, a
    {
      !a.removed ==> (a in displaced <==> !OnMap(a))
    }

    ghost predicate PathsOk() reads this, files { forall p :: p in byPath ==> PathOk(p) }

    ghost predicate FilesOk() reads this, files { forall a :: a in files ==> FileOk(a) }

    ghost predicate Valid()
      reads this, files
    {
      && fs.contents.Keys == byPath.Keys
      && PathsOk()
      && FilesOk()
      && (forall a :: a in displaced ==> a in files && !a.removed)
      && fs.overwrites == |displaced|
    }

    /** The order holds every file once, and snippets, which are never removed. */
    ghost predicate Ordered()
      reads this, order
    {
      && (forall i, j :: 0 <= i < j < |order| ==> order[i] != order[j])
      && (forall a :: a in order ==> (a.isFile <==> a in files))
      && (forall a :: a in files ==> a in order)
      && (forall a :: a in order && !a.isFile ==> !a.removed)
    }

    constructor ()
      ensures Valid() && Ordered() && fs == Files(map[], 0) && order == [] && files == {}
    {
      order, byPath, fs, files, displaced := [], map[], Files(map[], 0), {}, {};
    }

    /** Of the file artifacts there are, only the one the path led to changed. */
    twostate predicate OnlyTouches(path: string)
      requires path in old(byPath)
      reads this, files
    {
      forall a :: a in files && a != old(byPath)[path] ==> a in old(files) && Details(a) == old(Details(a))
    }

    static ghost function Details(a: Artifact): (string, string, string, bool)
      reads a
    {
      (a.filePath, a.title, a.content, a.removed)
    }

    twostate lemma UnmappingKeepsPaths(path: string)
      requires old(PathsOk()) && old(FilesOk()) && path in old(byPath) && files == old(files) && OnlyTouches(path)
      requires byPath == old(byPath) - {path} && fs.contents == old(fs).contents - {path}
      ensures PathsOk()
    {
      assert old(PathOk(path));
      forall p | p in byPath
        ensures PathOk(p)
      {
        assert old(PathOk(p));
      }
    }

    twostate lemma RemovingKeepsFiles(path: string)
      requires old(PathsOk()) && old(FilesOk()) && path in old(byPath) && files == old(files) && OnlyTouches(path)
      requires byPath == old(byPath) - {path} && displaced == old(displaced) && old(byPath)[path].removed
      ensures FilesOk()
    {
      var art := old(byPath)[path];
      assert old(PathOk(path)) && old(FileOk(art));
      forall a | a in files && a != art
        ensures FileOk(a)
      {
        assert old(FileOk(a));
      }
    }

    method MarkRemoved(path: string)
      requires Valid() && path in byPath
      modifies this`byPath, this`fs, files
      ensures Valid() && fs == old(fs).(contents := old(fs).contents - {path})
    {
      var art := byPath[path];
      assert PathOk(path);
      art.removed := true;
      byPath := byPath - {path};
      fs := fs.(contents := fs.contents - {path});
      UnmappingKeepsPaths(path);
      RemovingKeepsFiles(path);
    }

    method RemovePath(path: string)
      requires Valid()
      modifies this`byPath, this`fs, files
      ensures Valid() && fs == AfterOp(old(fs), Remove(path))
    {
      if path in byPath {
        MarkRemoved(path);
      } else {
        assert fs.contents - {path} == fs.contents;
      }
    }

    twostate lemma DisplacingKeepsFiles(path: string)
      requires old(PathsOk()) && old(FilesOk()) && path in old(byPath) && files == old(files)
      requires forall a :: a in files ==> a in old(files) && Details(a) == old(Details(a))
      requires byPath == old(byPath) - {path} && displaced == old(displaced) + {old(byPath)[path]}
      ensures FilesOk()
    {
      assert old(PathOk(path));
      forall a | a in files
        ensures FileOk(a)
      {
        assert old(FileOk(a));
      }
    }

    /** The artifact at `path` loses its place on the map but stays in the order. */
    method Displace(path: string)
      requires Valid() && path in byPath
      modifies this`byPath, this`displaced, this`fs
      ensures Valid() && fs == Files(old(fs).contents - {path}, old(fs).overwrites + 1)
      ensures byPath == old(byPath) - {path}
    {
      ghost var art := byPath[path];
      assert PathOk(path) && FileOk(art);
      displaced := displaced + {art};
      byPath := byPath - {path};
      fs := Files(fs.contents - {path}, fs.overwrites + 1);
      UnmappingKeepsPaths(path);
      DisplacingKeepsFiles(path);
    }

    twostate lemma RekeyingKeepsPaths(move: FileOp)
      requires move.Move? && old(PathsOk()) && old(FilesOk()) && move.from in old(byPath) && move.to !in old(byPath) && files == old(files) && OnlyTouches(move.from)
      requires byPath == (old(byPath) - {move.from})[move.to := old(byPath)[move.from]]
      requires fs.contents == (old(fs).contents - {move.from})[move.to := old(fs).contents[move.from]]
      requires Details(old(byPath)[move.from]) == old(Details(byPath[move.from])).(0 := move.to, 1 := Basename(move.to))
      ensures PathsOk()
    {
      assert old(PathOk(move.from));
      forall p | p in byPath && p != move.to
        ensures PathOk(p)
      {
        assert old(PathOk(p));
      }
    }

    twostate lemma RekeyingKeepsFiles(move: FileOp)
      requires move.Move? && old(PathsOk()) && old(FilesOk()) && move.from in old(byPath) && move.to !in old(byPath) && files == old(files) && OnlyTouches(move.from)
      requires byPath == (old(byPath) - {move.from})[move.to := old(byPath)[move.from]] && displaced == old(displaced)
      requires Details(old(byPath)[move.from]) == old(Details(byPath[move.from])).(0 := move.to, 1 := Basename(move.to))
      ensures FilesOk()
    {
      var art := old(byPath)[move.from];
      assert old(PathOk(move.from)) && old(FileOk(art));
      forall a | a in files && a != art
        ensures FileOk(a)
      {
        assert old(FileOk(a));
        if a.filePath in byPath && a.filePath != move.to {
          assert byPath[a.filePath] == old(byPath)[a.filePath];
        }
      }
    }

    /** Moves the artifact at `from` to a path with none. */
    method Rekey(from: string, to: string)
      requires Valid() && from in byPath && to !in byPath
      modifies this`byPath, this`fs, files
      ensures Valid() && fs.overwrites == old(fs).overwrites
      ensures fs.contents == (old(fs).contents - {from})[to := old(fs).contents[from]]
    {
      var art := byPath[from];
      assert PathOk(from);
      fs := fs.(contents := (fs.contents - {from})[to := fs.contents[from]]);
      art.filePath := to;
      art.title := Basename(to);
      byPath := (byPath - {from})[to := art];
      RekeyingKeepsPaths(Move(from, to));
      RekeyingKeepsFiles(Move(from, to));
    }

    method MovePath(from: string, to: string)
      requires Valid()
      modifies this`byPath, this`displaced, this`fs, files
      ensures Valid() && fs == AfterOp(old(fs), Move(from, to))
    {
      if from == to || from !in byPath {
        return;
      }
      if to in byPath {
        Displace(to);
      }
      Rekey(from, to);
      ReplacingIsEnough(old(fs).contents, from, to);
    }

    method ApplyBashOps(command: string)
      requires Valid()
      modifies this`byPath, this`displaced, this`fs, files
      ensures Valid() && fs == AfterCommand(old(fs), command)
    {
      var ops := ParseFileOps(command);
      for n := 0 to |ops|
        invariant Valid() && files == old(files) && fs == AfterOps(old(fs), ops, n)
      {
        match ops[n]
        case Remove(path) => RemovePath(path);
        case Move(from, to) => MovePath(from, to);
      }
    }

    method AddFile(path: string, content: string) returns (art: Artifact)
      requires Valid() && path !in byPath
      modifies this`byPath, this`fs, this`files
      ensures Valid() && fresh(art) && art.isFile && files == old(files) + {art}
      ensures fs == old(fs).(contents := old(fs).contents[path := content])
    {
      art := new Artifact.File(path, content);
      files := files + {art};
      byPath := byPath[path := art];
      fs := fs.(contents := fs.contents[path := content]);
      forall p | p in byPath && p != path
        ensures PathOk(p)
      {
        assert old(PathOk(p));
      }
      forall a | a in files && a != art
        ensures FileOk(a)
      {
        assert old(FileOk(a));
      }
    }

    /** A write to a path on the map replaces the content in place; otherwise it adds a file. */
    method WriteFile(path: string, content: string)
      requires Valid() && Ordered()
      modifies this`order, this`byPath, this`fs, this`files, files
      ensures Valid() && Ordered() && fresh(files - old(files))
      ensures fs == old(fs).(contents := old(fs).contents[path := content])
      ensures old(order) <= order
    {
      if path in byPath {
        SetContent(path, content);
      } else {
        AppendFile(path, content);
      }
    }

    method AppendFile(path: string, content: string)
      requires Valid() && Ordered() && path !in byPath
      modifies this`order, this`byPath, this`fs, this`files
      ensures Valid() && Ordered() && fresh(files - old(files))
      ensures fs == old(fs).(contents := old(fs).contents[path := content])
      ensures old(order) <= order
    {
      var art := AddFile(path, content);
      order := order + [art];
    }

    method SetContent(path: string, content: string)
      requires Valid() && Ordered() && path in byPath
      modifies this`fs, files
      ensures Valid() && Ordered() && fs == old(fs).(contents := old(fs).contents[path := content])
    {
      assert PathOk(path);
      byPath[path].content := content;
      fs := fs.(contents := fs.contents[path := content]);
      forall p | p in byPath
        ensures PathOk(p)
      {
        assert old(PathOk(p));
        assert p != path ==> byPath[p] != byPath[path];
      }
      forall a | a in files
        ensures FileOk(a)
      {
        assert old(FileOk(a));
      }
    }

    /** Edits only what this session has written. */
    method EditPath(path: string, edits: seq<Edit>)
      requires Valid() && Ordered() && Trim(path) != ""
      modifies this`fs, files
      ensures Valid() && Ordered()
      ensures fs == AfterCall(old(fs), EditFile(Some(path), edits), true)
    {
      if path in byPath {
        assert PathOk(path);
        var content := ApplyEdits(byPath[path].content, edits);
        SetContent(path, content);
      }
    }

    method ApplyFileToolCall(tool: Tool, succeeded: bool)
      requires Valid() && Ordered()
      modifies this, files
      ensures Valid() && Ordered() && fresh(files - old(files)) && old(order) <= order
      ensures fs == AfterCall(old(fs), tool, succeeded)
    {
      match tool
      case Write(path, content) =>
        if Usable(path) && content.Some? {
          WriteFile(path.value, content.value);
        }
      case EditFile(path, edits) =>
        if Usable(path) {
          EditPath(path.value, edits);
        }
      case Bash(command) =>
        if succeeded {
          ApplyBashOps(command);
        }
      case OtherTool =>
    }

    method AddSnippet(content: string)
      requires Valid() && Ordered()
      modifies this`order
      ensures Valid() && Ordered() && old(order) <= order
    {
      var snippet := new Artifact.Snippet(content);
      order := order + [snippet];
    }

    method ApplyBlocks(all: seq<Entry>, blocks: seq<Block>)
      requires Valid() && Ordered()
      modifies this, files
      ensures Valid() && Ordered() && fresh(files - old(files)) && old(order) <= order
      ensures fs == AfterBlocks(old(fs), all, blocks, |blocks|)
    {
      for n := 0 to |blocks|
        invariant Valid() && Ordered() && fresh(files - old(files)) && old(order) <= order
        invariant fs == AfterBlocks(old(fs), all, blocks, n)
      {
        match blocks[n]
        case Call(id, tool) => ApplyFileToolCall(tool, Succeeded(all, |all|, id));
        case Snippet(content) => AddSnippet(content);
        case OtherBlock =>
      }
    }

    method ApplyEntry(all: seq<Entry>, e: Entry)
      requires Valid() && Ordered()
      modifies this, files
      ensures Valid() && Ordered() && fresh(files - old(files)) && old(order) <= order
      ensures fs == AfterEntry(old(fs), all, e)
    {
      match e
      case Assistant(_, blocks) => ApplyBlocks(all, blocks);
      case UserBash(command, succeeded) =>
        if succeeded {
          ApplyBashOps(command);
        }
      case ToolResult(_, _) =>
      case OtherEntry =>
    }

    static ghost function Living(os: seq<Artifact>): (r: seq<bool>)
      reads os
      ensures |r| == |os|
    {
      seq(|os|, i requires 0 <= i < |os| reads os => !os[i].removed)
    }

    /** The artifacts still there, in order of first appearance. */
    method Alive() returns (alive: seq<Artifact>)
      requires Ordered()
      ensures alive == Filtered(order, Living(order))
      ensures forall a :: a in alive <==> a in order && !a.removed
      ensures forall i, j :: 0 <= i < j < |alive| ==> alive[i] != alive[j]
    {
      alive := [];
      ghost var keep := Living(order);
      for n := 0 to |order|
        invariant alive == Filtered(order[..n], keep[..n])
        invariant forall a :: a in alive <==> a in order[..n] && !a.removed
        invariant forall i, j :: 0 <= i < j < |alive| ==> alive[i] != alive[j]
      {
        OneMoreKept(order, keep, n + 1, alive);
        assert order[..n + 1] == order[..n] + [order[n]];
        if !order[n].removed {
          alive := alive + [order[n]];
        }
      }
      assert order[..|order|] == order && keep[..|order|] == keep;
    }
  }

  /** Every path leads to a live artifact in the order. */
  lemma PathsAreAlive(reg: Registry, p: string)
    requires reg.Valid() && reg.Ordered() && p in reg.byPath
    ensures var a := reg.byPath[p];
            a in reg.order && !a.removed && a.isFile && a.filePath == p
            && p in reg.fs.contents && a.content == reg.fs.contents[p]
  {
    assert reg.PathOk(p);
  }

  /** A map with distinct values has as many values as keys. */
  lemma {:induction false} DistinctValues(m: map<string, Artifact>)
    requires forall p, q :: p in m && q in m && p != q ==> m[p] != m[q]
    ensures |set p | p in m :: m[p]| == |m|
    decreases |m|
  {
    var vs := set p | p in m :: m[p];
    if |m| > 0 {
      var p :| p in m;
      var rest := m - {p};
      DistinctValues(rest);
      var ws := set q | q in rest :: rest[q];
      forall v | v in vs
        ensures v in ws + {m[p]}
      {
        var q :| q in m && m[q] == v;
        assert q != p ==> q in rest && rest[q] == v;
      }
      forall v | v in ws
        ensures v in vs && v != m[p]
      {
        var q :| q in rest && rest[q] == v;
        assert q in m;
      }
      assert vs == ws + {m[p]};
    } else {
      assert vs == {};
    }
  }

  /** The live files are those on the map, one per path, and those displaced. */
  lemma {:induction false} LiveFiles(reg: Registry)
    requires reg.Valid() && reg.Ordered()
    ensures |set a | a in reg.order && a.isFile && !a.removed| == |reg.fs.contents| + reg.fs.overwrites
  {
    var onMap := set p | p in reg.byPath :: reg.byPath[p];
    forall p | p in reg.byPath
      ensures reg.byPath[p] in reg.files && !reg.byPath[p].removed && reg.byPath[p].filePath == p
    {
      assert reg.PathOk(p);
    }
    DisplacedOrMapped(reg, onMap);
    DistinctValues(reg.byPath);
    assert |reg.byPath.Keys| == |reg.fs.contents.Keys|;
    assert (set a | a in reg.order && a.isFile && !a.removed) == onMap + reg.displaced;
  }

  lemma DisplacedOrMapped(reg: Registry, onMap: set<Artifact>)
    requires reg.Valid() && onMap == set p | p in reg.byPath :: reg.byPath[p]
    ensures forall a :: a in reg.files && !a.removed ==> (a in reg.displaced <==> a !in onMap)
  {
    forall a | a in reg.files && !a.removed
      ensures a in reg.displaced <==> a !in onMap
    {
      assert reg.FileOk(a);
      if a in onMap {
        var p :| p in reg.byPath && reg.byPath[p] == a;
        assert reg.PathOk(p);
      }
    }
  }

  lemma AliveFiles(reg: Registry, alive: seq<Artifact>)
    requires reg.Valid() && reg.Ordered()
    requires forall a :: a in alive <==> a in reg.order && !a.removed
    ensures forall p :: p in reg.fs.contents ==>
              exists a :: a in alive && a.isFile && a.filePath == p && a.content == reg.fs.contents[p]
    ensures |set a | a in alive && a.isFile| == |reg.fs.contents| + reg.fs.overwrites
  {
    LiveFiles(reg);
    assert (set a | a in alive && a.isFile) == (set a | a in reg.order && a.isFile && !a.removed);
    forall p | p in reg.fs.contents
      ensures exists a :: a in alive && a.isFile && a.filePath == p && a.content == reg.fs.contents[p]
    {
      PathsAreAlive(reg, p);
      assert reg.byPath[p] in alive;
    }
  }

  /** The registry after all entries: a plain file system replaying the same session. */
  method Replay(entries: seq<Entry>) returns (reg: Registry)
    ensures fresh(reg) && reg.Valid() && reg.Ordered() && reg.fs == Replayed(entries, |entries|)
  {
    reg := new Registry();
    for n := 0 to |entries|
      invariant fresh(reg) && fresh(reg.files) && reg.Valid() && reg.Ordered()
      invariant reg.fs == Replayed(entries, n)
    {
      reg.ApplyEntry(entries, entries[n]);
    }
  }

  /**
   collectArtifacts. The paths and contents are those of a plain file system replaying the same
   entries; what is left in the order is one artifact per path plus one for every move that
   landed on a path already there, so there is exactly one per path exactly when no move did.
   */
  method CollectArtifacts(entries: seq<Entry>) returns (alive: seq<Artifact>)
    ensures var fs := Replayed(entries, |entries|);
            && (forall p :: p in fs.contents ==>
                  exists a :: a in alive && a.isFile && a.filePath == p && a.content == fs.contents[p])
            && |set a | a in alive && a.isFile| == |fs.contents| + fs.overwrites
    ensures forall i, j :: 0 <= i < j < |alive| ==> alive[i] != alive[j]
  {
    var reg := Replay(entries);
    alive := reg.Alive();
    AliveFiles(reg, alive);
  }
}
