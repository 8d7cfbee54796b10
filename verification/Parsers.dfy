/**
 Three readers of one session log: ParseSummary and ParseFile (internal/sessions/session.go), written
 independently over typed and untyped JSON, and ReadTitleInputs (internal/sessions/title.go).
 A line is modelled after JSON decoding, each field absent or of its type.
 */
module Parsers {
  import opened Prelude

  datatype TextBlock = TextBlock(kind: string, text: string)

  datatype Content = Text(text: string) | Blocks(blocks: seq<TextBlock>) | NoContent

  datatype Message = Message(role: string, model: string, provider: string, content: Content)

  datatype Line =
    | Unreadable
    | Fields(kind: string, id: string, timestamp: Option<string>, cwd: string, name: string, message: Option<Message>,
             modelId: string, provider: string, archived: Option<bool>, autoTitle: bool)

  function BlocksText(blocks: seq<TextBlock>, n: nat): string
    requires n <= |blocks|
  {
    if n == 0 then ""
    else BlocksText(blocks, n - 1) + if blocks[n - 1].kind == "text" then blocks[n - 1].text else ""
  }

  function ContentText(c: Content): string
  {
    match c
    case Text(text) => text
    case Blocks(blocks) => BlocksText(blocks, |blocks|)
    case NoContent => ""
  }

  /** The text of blocks is that of the text blocks, one after the other, and nothing of any other. */
  lemma {:induction false} BlocksTextAppend(a: seq<TextBlock>, b: TextBlock)
    ensures BlocksText(a + [b], |a| + 1) == BlocksText(a, |a|) + if b.kind == "text" then b.text else ""
    ensures BlocksText([], 0) == ""
  {
    BlocksTextPrefix(a + [b], a, |a|);
  }

  lemma {:induction false} BlocksTextPrefix(a: seq<TextBlock>, b: seq<TextBlock>, n: nat)
    requires n <= |a| && n <= |b| && forall i :: 0 <= i < n ==> a[i] == b[i]
    ensures BlocksText(a, n) == BlocksText(b, n)
  {
    if n > 0 {
      BlocksTextPrefix(a, b, n - 1);
    }
  }

  method ExtractText(c: Content) returns (text: string)
    ensures text == ContentText(c)
  {
    match c {
      case Text(t) => text := t;
      case NoContent => text := "";
      case Blocks(blocks) =>
        text := "";
        for n := 0 to |blocks|
          invariant text == BlocksText(blocks, n)
        {
          if blocks[n].kind == "text" && blocks[n].text != "" {
            text := text + blocks[n].text;
          } else {
            assert text + "" == text;
          }
        }
    }
  }

  // --- What the readers collect ---------------------------------------------------------

  datatype Found = Found(uuid: string, headerName: string, headerCwd: string, infoName: string, activity: string,
                         model: string, provider: string, firstUserText: string, archived: bool)

  const NOTHING := Found("", "", "", "", "", "", "", "", false)

  function Or(value: string, otherwise: string): string { if value != "" then value else otherwise }

  function WithModel(f: Found, model: string, provider: string): Found
  {
    if model != "" then f.(model := model, provider := provider) else f
  }

  function WithMessage(f: Found, m: Option<Message>): Found
  {
    if m.None? then f
    else
      var g := WithModel(f, m.value.model, m.value.provider);
      if g.firstUserText == "" && m.value.role == "user" then g.(firstUserText := ContentText(m.value.content)) else g
  }

  function WithHeader(f: Found, line: Line): Found
    requires line.Fields?
  {
    f.(headerName := Or(line.name, f.headerName), headerCwd := Or(line.cwd, f.headerCwd), uuid := Or(line.id, f.uuid))
  }

  /** ParseSummary ignores empty timestamps, and takes an archive line without a flag for false. */
  function SummaryStep(f: Found, line: Line): Found
  {
    if line.Unreadable? then f
    else
      var timed := f.(activity := if line.timestamp.Some? then Or(line.timestamp.value, f.activity) else f.activity);
      if line.kind == "session" then WithHeader(f, line)
      else if line.kind == "session_info" then f.(infoName := Or(line.name, f.infoName))
      else if line.kind == "message" then WithMessage(timed, line.message)
      else if line.kind == "model_change" then WithModel(timed, line.modelId, line.provider)
      else if line.kind == "archive" then f.(archived := line.archived == Some(true))
      else timed
  }

  /** ParseFile takes any timestamp that is there, and ignores an archive line without a flag. */
  function FileStep(f: Found, line: Line): Found
  {
    if line.Unreadable? then f
    else
      var timed := f.(activity := if line.timestamp.Some? then line.timestamp.value else f.activity);
      if line.kind == "session" then WithHeader(f, line)
      else if line.kind == "session_info" then f.(infoName := Or(line.name, f.infoName))
      else if line.kind == "message" then WithMessage(timed, line.message)
      else if line.kind == "model_change" then WithModel(timed, line.modelId, line.provider)
      else if line.kind == "archive" then f.(archived := if line.archived.Some? then line.archived.value else f.archived)
      else timed
  }

  /** What identifies a session header; empty when id or timestamp is. */
  function HeaderKey(line: Line): string
    requires line.Fields?
  {
    var timestamp := if line.timestamp.Some? then line.timestamp.value else "";
    if line.id == "" || timestamp == "" then "" else line.id + "\0" + timestamp + "\0" + line.cwd
  }

  predicate IsHeader(line: Line) { line.Fields? && line.kind == "session" && HeaderKey(line) != "" }

  /** The keys of the session headers among the first `n` lines. */
  function HeaderKeys(lines: seq<Line>, n: nat): set<string>
    requires n <= |lines|
  {
    if n == 0 then {}
    else if IsHeader(lines[n - 1]) then HeaderKeys(lines, n - 1) + {HeaderKey(lines[n - 1])}
    else HeaderKeys(lines, n - 1)
  }

  /** ParseFile skips a header it has seen before; ParseSummary does not. */
  predicate Repeats(lines: seq<Line>, n: nat)
    requires n < |lines|
  {
    IsHeader(lines[n]) && HeaderKey(lines[n]) in HeaderKeys(lines, n)
  }

  function SummaryFound(lines: seq<Line>, n: nat): Found
    requires n <= |lines|
  {
    if n == 0 then NOTHING else SummaryStep(SummaryFound(lines, n - 1), lines[n - 1])
  }

  function FileFound(lines: seq<Line>, n: nat): Found
    requires n <= |lines|
  {
    if n == 0 then NOTHING
    else if Repeats(lines, n - 1) then FileFound(lines, n - 1)
    else FileStep(FileFound(lines, n - 1), lines[n - 1])
  }

  /** The entries ParseFile returns: the readable lines without repeated headers. */
  function FileEntries(lines: seq<Line>, n: nat): seq<Line>
    requires n <= |lines|
  {
    if n == 0 then []
    else if lines[n - 1].Unreadable? || Repeats(lines, n - 1) then FileEntries(lines, n - 1)
    else FileEntries(lines, n - 1) + [lines[n - 1]]
  }

  // --- The summary ------------------------------------------------------------------------

  /** What lies outside the log: the file's name and time, the decoded directory name, and whether
      the working directory exists. */
  datatype Context = Context(fileName: string, modTime: string, directory: string, cwdExists: bool)

  datatype Summary = Summary(id: string, uuid: string, project: string, activity: string, name: string, model: string,
                             provider: string, chatAvailable: bool, archived: bool)

  function Truncated(s: string): string { if |s| <= 80 then s else s[..80] + "…" }

  function Lower(c: char): char { if 'A' <= c <= 'Z' then (c as int + 32) as char else c }

  function Forward(path: string): (r: string)
    ensures |r| == |path|
  {
    seq(|path|, i requires 0 <= i < |path| => if path[i] == '\\' then '/' else path[i])
  }

  function Lowered(path: string): (r: string)
    ensures |r| == |path|
  {
    seq(|path|, i requires 0 <= i < |path| => Lower(path[i]))
  }

  predicate OnDrive(path: string) { |path| >= 2 && path[0] < '\U{80}' && path[1] == ':' }

  /** Forward slashes, and lower case where the volume does not tell case apart. */
  function CanonicalProject(path: string): string
  {
    var p := Forward(path);
    if OnDrive(p) then Lowered(p) else p
  }

  /** Canonical keys are stable, and paths that differ in slashes or, on a drive, in case share one. */
  lemma {:induction false} CanonicalIsStable(path: string)
    ensures CanonicalProject(CanonicalProject(path)) == CanonicalProject(path)
    ensures CanonicalProject(Forward(path)) == CanonicalProject(path)
    ensures OnDrive(path) ==> CanonicalProject(Lowered(path)) == CanonicalProject(path)
  {
    assert Forward(Forward(path)) == Forward(path);
    assert Lowered(Lowered(Forward(path))) == Lowered(Forward(path));
    assert Forward(Lowered(Forward(path))) == Lowered(Forward(path));
    assert Lowered(Forward(Lowered(path))) == Lowered(Forward(path));
  }

  /** applySummaryContext. */
  function SummaryFrom(f: Found, c: Context): Summary
  {
    Summary(c.fileName, f.uuid, if f.headerCwd != "" then CanonicalProject(f.headerCwd) else c.directory,
            Or(f.activity, c.modTime), Or(f.infoName, Or(f.headerName, Or(Truncated(f.firstUserText), c.fileName))),
            f.model, f.provider, f.headerCwd == "" || c.cwdExists, f.archived)
  }

  datatype Session = Session(summary: Summary, header: Option<Line>, entries: seq<Line>)

  /** The last header kept. */
  function FileHeader(lines: seq<Line>, n: nat): Option<Line>
    requires n <= |lines|
  {
    if n == 0 then None
    else if lines[n - 1].Fields? && lines[n - 1].kind == "session" && !Repeats(lines, n - 1) then Some(lines[n - 1])
    else FileHeader(lines, n - 1)
  }

  method ParseSummary(lines: seq<Line>, c: Context) returns (s: Summary)
    ensures s == SummaryFrom(SummaryFound(lines, |lines|), c)
  {
    var uuid, headerName, headerCwd, infoName, firstUserText := "", "", "", "", "";
    var activity, model, provider, archived := "", "", "", false;
    for n := 0 to |lines|
      invariant Found(uuid, headerName, headerCwd, infoName, activity, model, provider, firstUserText, archived)
             == SummaryFound(lines, n)
    {
      var line := lines[n];
      if line.Unreadable? {
        continue;
      }
      var timestamp := if line.timestamp.Some? then line.timestamp.value else "";
      if line.kind == "session" {
        if line.name != "" { headerName := line.name; }
        if line.cwd != "" { headerCwd := line.cwd; }
        if line.id != "" { uuid := line.id; }
      } else if line.kind == "session_info" {
        if line.name != "" { infoName := line.name; }
      } else if line.kind == "message" {
        if timestamp != "" { activity := timestamp; }
        if line.message.None? {
          continue;
        }
        var msg := line.message.value;
        if msg.model != "" { model, provider := msg.model, msg.provider; }
        if firstUserText == "" && msg.role == "user" {
          firstUserText := ExtractText(msg.content);
        }
      } else if line.kind == "model_change" {
        if timestamp != "" { activity := timestamp; }
        if line.modelId != "" { model, provider := line.modelId, line.provider; }
      } else if line.kind == "archive" {
        archived := line.archived == Some(true);
      } else {
        if timestamp != "" { activity := timestamp; }
      }
    }
    s := SummaryFrom(Found(uuid, headerName, headerCwd, infoName, activity, model, provider, firstUserText, archived), c);
  }

  method ParseFile(lines: seq<Line>, c: Context) returns (s: Session)
    ensures s == Session(SummaryFrom(FileFound(lines, |lines|), c), FileHeader(lines, |lines|), FileEntries(lines, |lines|))
  {
    var uuid, headerName, headerCwd, infoName, firstUserText := "", "", "", "", "";
    var activity, model, provider, archived := "", "", "", false;
    var entries: seq<Line>, header: Option<Line>, seen: set<string> := [], None, {};
    for n := 0 to |lines|
      invariant Found(uuid, headerName, headerCwd, infoName, activity, model, provider, firstUserText, archived)
             == FileFound(lines, n)
      invariant entries == FileEntries(lines, n) && header == FileHeader(lines, n) && seen == HeaderKeys(lines, n)
    {
      var line := lines[n];
      if line.Unreadable? {
        continue;
      }
      if line.kind == "session" {
        var key := HeaderKey(line);
        if key != "" && key in seen {
          assert seen + {key} == seen;
          continue;
        }
        if key != "" {
          seen := seen + {key};
        }
      }
      entries := entries + [line];
      if line.kind == "session" {
        header := Some(line);
        if line.name != "" { headerName := line.name; }
        if line.cwd != "" { headerCwd := line.cwd; }
        if line.id != "" { uuid := line.id; }
      } else if line.kind == "session_info" {
        if line.name != "" { infoName := line.name; }
      } else if line.kind == "message" {
        if line.timestamp.Some? { activity := line.timestamp.value; }
        if line.message.None? {
          continue;
        }
        var msg := line.message.value;
        if msg.model != "" { model, provider := msg.model, msg.provider; }
        if firstUserText == "" {
          if msg.role == "user" { firstUserText := ExtractText(msg.content); }
        }
      } else if line.kind == "model_change" {
        if line.timestamp.Some? { activity := line.timestamp.value; }
        if line.modelId != "" { model, provider := line.modelId, line.provider; }
      } else if line.kind == "archive" {
        if line.archived.Some? { archived := line.archived.value; }
      } else {
        if line.timestamp.Some? { activity := line.timestamp.value; }
      }
    }
    var f := Found(uuid, headerName, headerCwd, infoName, activity, model, provider, firstUserText, archived);
    s := Session(SummaryFrom(f, c), header, entries);
  }

  // --- When the two agree ------------------------------------------------------------------

  /** What a line must not do after the lines before it: repeat a header with anything not in force,
      carry an empty timestamp over a known activity, or lack the flag while archived. */
  predicate Harmless(lines: seq<Line>, n: nat)
    requires n < |lines|
  {
    var f, line := SummaryFound(lines, n), lines[n];
    line.Unreadable? ||
    (if line.kind == "session" then
       Repeats(lines, n) ==>
         (line.name == "" || line.name == f.headerName) && (line.cwd == "" || line.cwd == f.headerCwd) && line.id == f.uuid
     else if line.kind == "archive" then line.archived.None? ==> !f.archived
     else if line.kind == "session_info" then true
     else line.timestamp == Some("") ==> f.activity == "")
  }

  lemma StepsAgreeIff(f: Found, line: Line)
    requires line.Unreadable? || line.kind != "session"
    ensures SummaryStep(f, line) == FileStep(f, line) <==>
              line.Unreadable?
              || (if line.kind == "archive" then line.archived.None? ==> !f.archived
                  else line.kind == "session_info" || (line.timestamp == Some("") ==> f.activity == ""))
  {
    if line.Fields? && line.kind == "message" {
      var a := f.(activity := if line.timestamp.Some? then Or(line.timestamp.value, f.activity) else f.activity);
      var b := f.(activity := if line.timestamp.Some? then line.timestamp.value else f.activity);
      assert WithMessage(a, line.message).activity == a.activity && WithMessage(b, line.message).activity == b.activity;
    }
  }

  lemma AgreementGoesOnIff(lines: seq<Line>, n: nat)
    requires n < |lines| && FileFound(lines, n) == SummaryFound(lines, n)
    ensures FileFound(lines, n + 1) == SummaryFound(lines, n + 1) <==> Harmless(lines, n)
  {
    var f, line := SummaryFound(lines, n), lines[n];
    if line.Unreadable? || line.kind != "session" {
      StepsAgreeIff(f, line);
    }
  }

  predicate AgreeUpTo(lines: seq<Line>, n: nat)
    requires n <= |lines|
  {
    forall k :: 0 <= k <= n ==> FileFound(lines, k) == SummaryFound(lines, k)
  }

  predicate HarmlessUpTo(lines: seq<Line>, n: nat)
    requires n <= |lines|
  {
    forall k :: 0 <= k < n ==> Harmless(lines, k)
  }

  /** The two parsers agree on every state a growing log goes through exactly when every line of it
      is harmless where it stands. */
  lemma {:induction false} ParsersAgreeIff(lines: seq<Line>, n: nat)
    requires n <= |lines|
    ensures AgreeUpTo(lines, n) <==> HarmlessUpTo(lines, n)
  {
    if n > 0 {
      ParsersAgreeIff(lines, n - 1);
      assert AgreeUpTo(lines, n) <==> AgreeUpTo(lines, n - 1) && FileFound(lines, n) == SummaryFound(lines, n);
      assert HarmlessUpTo(lines, n) <==> HarmlessUpTo(lines, n - 1) && Harmless(lines, n - 1);
      if AgreeUpTo(lines, n - 1) {
        assert FileFound(lines, n - 1) == SummaryFound(lines, n - 1);
        AgreementGoesOnIff(lines, n - 1);
      }
    }
  }

  predicate IsSession(line: Line) { line.Fields? && line.kind == "session" }

  predicate HasSession(lines: seq<Line>, n: nat)
    requires n <= |lines|
  {
    n > 0 && (IsSession(lines[n - 1]) || HasSession(lines, n - 1))
  }

  /** Headers are all the same line, timestamps are not empty, archive lines carry a flag. */
  predicate Regular(lines: seq<Line>)
  {
    && (forall i, j :: 0 <= i < j < |lines| && IsSession(lines[i]) && IsSession(lines[j]) ==> lines[i] == lines[j])
    && (forall i :: 0 <= i < |lines| && lines[i].Fields? ==> lines[i].timestamp != Some(""))
    && (forall i :: 0 <= i < |lines| && lines[i].Fields? && lines[i].kind == "archive" ==> lines[i].archived.Some?)
  }

  /** With one header line, the header fields are that line's from its first occurrence on. */
  lemma {:induction false} HeaderIsInForce(lines: seq<Line>, n: nat, header: Line)
    requires n <= |lines| && header.Fields?
    requires forall i :: 0 <= i < n && IsSession(lines[i]) ==> lines[i] == header
    ensures var f := SummaryFound(lines, n);
            if HasSession(lines, n) then f.headerName == header.name && f.headerCwd == header.cwd && f.uuid == header.id
            else f.headerName == "" && f.headerCwd == "" && f.uuid == ""
  {
    if n > 0 {
      HeaderIsInForce(lines, n - 1, header);
    }
  }

  lemma {:induction false} KeyHasHeader(lines: seq<Line>, n: nat, key: string)
    requires n <= |lines| && key in HeaderKeys(lines, n)
    ensures HasSession(lines, n)
  {
    if !IsHeader(lines[n - 1]) {
      KeyHasHeader(lines, n - 1, key);
    }
  }

  lemma RegularIsHarmless(lines: seq<Line>, n: nat)
    requires Regular(lines) && n < |lines|
    ensures Harmless(lines, n)
  {
    if Repeats(lines, n) {
      KeyHasHeader(lines, n, HeaderKey(lines[n]));
      HeaderIsInForce(lines, n, lines[n]);
    }
  }

  /** On a regular log ParseSummary and ParseFile compute the same summary. */
  lemma {:induction false} RegularLogsAgree(lines: seq<Line>, c: Context)
    requires Regular(lines)
    ensures SummaryFrom(FileFound(lines, |lines|), c) == SummaryFrom(SummaryFound(lines, |lines|), c)
  {
    forall n | 0 <= n < |lines|
      ensures Harmless(lines, n)
    {
      RegularIsHarmless(lines, n);
    }
    ParsersAgreeIff(lines, |lines|);
  }

  function LineOf(kind: string, id: string, timestamp: Option<string>, name: string, archived: Option<bool>): Line
  {
    Fields(kind, id, timestamp, "", name, None, "", "", archived, false)
  }

  /** Each condition is needed: a header seen before with a new name, an empty timestamp, and an
      archive line without its flag each make the parsers differ. */
  lemma {:induction false} EachConditionIsNeeded()
    ensures var a, b := LineOf("session", "1", Some("t"), "old", None), LineOf("session", "1", Some("t"), "new", None);
            FileFound([a, b], 2).headerName == "old" && SummaryFound([a, b], 2).headerName == "new"
    ensures var a, b := LineOf("message", "", Some("t"), "", None), LineOf("message", "", Some(""), "", None);
            FileFound([a, b], 2).activity == "" && SummaryFound([a, b], 2).activity == "t"
    ensures var a, b := LineOf("archive", "", None, "", Some(true)), LineOf("archive", "", None, "", None);
            FileFound([a, b], 2).archived && !SummaryFound([a, b], 2).archived
  {
    var a, b := LineOf("session", "1", Some("t"), "old", None), LineOf("session", "1", Some("t"), "new", None);
    TwoLines(a, b);
    assert HeaderKey(a) == HeaderKey(b) == "1" + "\0" + "t" + "\0" + "";
    TwoLines(LineOf("message", "", Some("t"), "", None), LineOf("message", "", Some(""), "", None));
    TwoLines(LineOf("archive", "", None, "", Some(true)), LineOf("archive", "", None, "", None));
  }

  lemma TwoLines(a: Line, b: Line)
    ensures SummaryFound([a, b], 2) == SummaryStep(SummaryStep(NOTHING, a), b)
    ensures FileFound([a, b], 2) ==
              if IsHeader(a) && IsHeader(b) && HeaderKey(a) == HeaderKey(b) then FileStep(NOTHING, a)
              else FileStep(FileStep(NOTHING, a), b)
  {
    var lines := [a, b];
    assert HeaderKeys(lines, 0) == {};
    assert HeaderKeys(lines, 1) == if IsHeader(a) then {HeaderKey(a)} else {};
    assert SummaryFound(lines, 1) == SummaryStep(NOTHING, a);
    assert FileFound(lines, 1) == FileStep(NOTHING, a);
  }

  predicate KeysAreKnown(es: seq<Line>, keys: set<string>)
  {
    forall i :: 0 <= i < |es| && IsHeader(es[i]) ==> HeaderKey(es[i]) in keys
  }

  predicate KeysDiffer(es: seq<Line>)
  {
    forall i, j :: 0 <= i < j < |es| && IsHeader(es[i]) && IsHeader(es[j]) ==> HeaderKey(es[i]) != HeaderKey(es[j])
  }

  lemma KeysStayDifferent(es: seq<Line>, line: Line, keys: set<string>)
    requires KeysAreKnown(es, keys) && KeysDiffer(es) && (IsHeader(line) ==> HeaderKey(line) !in keys)
    ensures KeysDiffer(es + [line])
    ensures KeysAreKnown(es + [line], if IsHeader(line) then keys + {HeaderKey(line)} else keys)
  {
  }

  /** ParseFile's entries hold each header once. */
  lemma {:induction false} HeadersAreKeptOnce(lines: seq<Line>, n: nat)
    requires n <= |lines|
    ensures KeysAreKnown(FileEntries(lines, n), HeaderKeys(lines, n)) && KeysDiffer(FileEntries(lines, n))
  {
    if n > 0 {
      HeadersAreKeptOnce(lines, n - 1);
      var line := lines[n - 1];
      if line.Fields? && !Repeats(lines, n - 1) {
        KeysStayDifferent(FileEntries(lines, n - 1), line, HeaderKeys(lines, n - 1));
      } else if Repeats(lines, n - 1) {
        assert HeaderKeys(lines, n) == HeaderKeys(lines, n - 1);
      }
    }
  }

  // --- The third reader ----------------------------------------------------------------------

  datatype TitleInputs = TitleInputs(firstUserText: string, lastUserText: string, currentName: string, explicitName: bool,
                                     autoTitled: bool, userMessages: nat, lastEntryType: string)

  /** ReadTitleInputs while it scans. */
  datatype Titles = Titles(headerName: string, infoName: string, infoAuto: bool, first: string, last: string, count: nat,
                           lastType: string)

  function TitleStep(t: Titles, line: Line): Titles
  {
    if line.Unreadable? then t
    else
      var u := t.(lastType := line.kind);
      if line.kind == "session" then u.(headerName := Or(line.name, t.headerName))
      else if line.kind == "session_info" then
        if line.name != "" then u.(infoName := line.name, infoAuto := line.autoTitle) else u
      else if line.kind == "message" && line.message.Some? && line.message.value.role == "user" then
        var text := ContentText(line.message.value.content);
        u.(count := t.count + 1, first := Or(t.first, text), last := Or(text, t.last))
      else u
  }

  function TitlesFound(lines: seq<Line>, n: nat): Titles
    requires n <= |lines|
  {
    if n == 0 then Titles("", "", false, "", "", 0, "") else TitleStep(TitlesFound(lines, n - 1), lines[n - 1])
  }

  function TitlesFrom(t: Titles): TitleInputs
  {
    var name := Or(t.infoName, t.headerName);
    TitleInputs(t.first, t.last, name, name != "", t.infoName != "" && t.infoAuto, t.count, t.lastType)
  }

  method ReadTitleInputs(lines: seq<Line>) returns (out: TitleInputs)
    ensures out == TitlesFrom(TitlesFound(lines, |lines|))
  {
    var headerName, infoName, infoAuto := "", "", false;
    out := TitleInputs("", "", "", false, false, 0, "");
    for n := 0 to |lines|
      invariant !out.explicitName && !out.autoTitled
      invariant Titles(headerName, infoName, infoAuto, out.firstUserText, out.lastUserText, out.userMessages, out.lastEntryType)
             == TitlesFound(lines, n)
    {
      var line := lines[n];
      if line.Unreadable? {
        continue;
      }
      out := out.(lastEntryType := line.kind);
      if line.kind == "session" {
        if line.name != "" { headerName := line.name; }
      } else if line.kind == "session_info" {
        if line.name != "" { infoName, infoAuto := line.name, line.autoTitle; }
      } else if line.kind == "message" {
        if line.message.None? || line.message.value.role != "user" {
          continue;
        }
        var text := ExtractText(line.message.value.content);
        out := out.(userMessages := out.userMessages + 1);
        if out.firstUserText == "" { out := out.(firstUserText := text); }
        if text != "" { out := out.(lastUserText := text); }
      }
    }
    if infoName != "" {
      out := out.(currentName := infoName, explicitName := true, autoTitled := infoAuto);
    } else if headerName != "" {
      out := out.(currentName := headerName, explicitName := true);
    } else {
      out := out.(currentName := "");
    }
  }

  lemma TitleStepFollows(t: Titles, f: Found, line: Line)
    requires t.headerName == f.headerName && t.infoName == f.infoName && t.first == f.firstUserText
    ensures var t', f' := TitleStep(t, line), SummaryStep(f, line);
            t'.headerName == f'.headerName && t'.infoName == f'.infoName && t'.first == f'.firstUserText
  {
  }

  lemma {:induction false} TitlesFollowSummary(lines: seq<Line>, n: nat)
    requires n <= |lines|
    ensures var t, f := TitlesFound(lines, n), SummaryFound(lines, n);
            t.headerName == f.headerName && t.infoName == f.infoName && t.first == f.firstUserText
  {
    if n > 0 {
      TitlesFollowSummary(lines, n - 1);
      TitleStepFollows(TitlesFound(lines, n - 1), SummaryFound(lines, n - 1), lines[n - 1]);
    }
  }

  /** On every log the titler sees the name ParseSummary shows when it is explicit, and the text
      ParseSummary derives a name from when it is not. */
  lemma {:induction false} TitlerAgreesWithSummary(lines: seq<Line>, c: Context)
    ensures var t, f := TitlesFrom(TitlesFound(lines, |lines|)), SummaryFound(lines, |lines|);
            && t.firstUserText == f.firstUserText
            && SummaryFrom(f, c).name ==
                 if t.explicitName then t.currentName else Or(Truncated(t.firstUserText), c.fileName)
  {
    TitlesFollowSummary(lines, |lines|);
  }

  /** On a regular log the titler agrees with ParseFile too. */
  lemma {:induction false} TitlerAgreesWithFile(lines: seq<Line>, c: Context)
    requires Regular(lines)
    ensures var t, f := TitlesFrom(TitlesFound(lines, |lines|)), FileFound(lines, |lines|);
            && t.firstUserText == f.firstUserText
            && SummaryFrom(f, c).name ==
                 if t.explicitName then t.currentName else Or(Truncated(t.firstUserText), c.fileName)
  {
    forall n | 0 <= n < |lines|
      ensures Harmless(lines, n)
    {
      RegularIsHarmless(lines, n);
    }
    ParsersAgreeIff(lines, |lines|);
    TitlerAgreesWithSummary(lines, c);
  }
}
