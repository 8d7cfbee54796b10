/**
 What the readers' results say about the lines of a log, line by line: which line decides each field of a
 summary (ParseSummary in internal/sessions/session.go) and of the titler's inputs (internal/sessions/title.go).
 */
module LogMeaning {
  import opened Prelude
  import opened Parsers

  /** The last of the first `n` lines that says something says this; if none does, it is as given. */
  ghost predicate LastSays<T(!new)>(lines: seq<Line>, n: nat, says: Line -> Option<T>, value: T, otherwise: T)
    requires n <= |lines|
  {
    || (exists i :: 0 <= i < n && says(lines[i]) == Some(value) && forall j :: i < j < n ==> says(lines[j]).None?)
    || (value == otherwise && forall j :: 0 <= j < n ==> says(lines[j]).None?)
  }

  ghost predicate FirstSays<T(!new)>(lines: seq<Line>, n: nat, says: Line -> Option<T>, value: T, otherwise: T)
    requires n <= |lines|
  {
    || (exists i :: 0 <= i < n && says(lines[i]) == Some(value) && forall j :: 0 <= j < i ==> says(lines[j]).None?)
    || (value == otherwise && forall j :: 0 <= j < n ==> says(lines[j]).None?)
  }

  lemma {:induction false} LastGrows<T(!new)>(lines: seq<Line>, n: nat, says: Line -> Option<T>, before: T, after: T, otherwise: T)
    requires 0 < n <= |lines| && LastSays(lines, n - 1, says, before, otherwise)
    requires after == if says(lines[n - 1]).Some? then says(lines[n - 1]).value else before
    ensures LastSays(lines, n, says, after, otherwise)
  {
    if says(lines[n - 1]).None? && exists i :: 0 <= i < n - 1 && says(lines[i]).Some? {
      var i :| 0 <= i < n - 1 && says(lines[i]) == Some(before) && forall j :: i < j < n - 1 ==> says(lines[j]).None?;
      assert forall j :: i < j < n ==> says(lines[j]).None?;
    }
  }

  lemma {:induction false} FirstGrows<T(!new)>(lines: seq<Line>, n: nat, says: Line -> Option<T>, before: T, after: T, otherwise: T)
    requires 0 < n <= |lines| && FirstSays(lines, n - 1, says, before, otherwise)
    requires forall i :: 0 <= i < n ==> says(lines[i]) != Some(otherwise)
    requires after == if before == otherwise && says(lines[n - 1]).Some? then says(lines[n - 1]).value else before
    ensures FirstSays(lines, n, says, after, otherwise)
  {
  }

  // --- What a line says -------------------------------------------------------------------

  function Said(s: string): Option<string> { if s != "" then Some(s) else None }

  predicate IsKind(l: Line, kind: string) { l.Fields? && l.kind == kind }

  function IdSaid(l: Line): Option<string> { if IsKind(l, "session") then Said(l.id) else None }

  function CwdSaid(l: Line): Option<string> { if IsKind(l, "session") then Said(l.cwd) else None }

  function HeaderNameSaid(l: Line): Option<string> { if IsKind(l, "session") then Said(l.name) else None }

  function InfoNameSaid(l: Line): Option<string> { if IsKind(l, "session_info") then Said(l.name) else None }

  /** Headers, renames and archive lines are no activity. */
  function ActivitySaid(l: Line): Option<string>
  {
    if l.Fields? && l.kind != "session" && l.kind != "session_info" && l.kind != "archive" && l.timestamp.Some? then
      Said(l.timestamp.value)
    else None
  }

  /** A message by a model, or a change of model: the model and its provider. */
  function ModelSaid(l: Line): Option<(string, string)>
  {
    if IsKind(l, "message") && l.message.Some? && l.message.value.model != "" then
      Some((l.message.value.model, l.message.value.provider))
    else if IsKind(l, "model_change") && l.modelId != "" then Some((l.modelId, l.provider))
    else None
  }

  function ArchivedSaid(l: Line): Option<bool>
  {
    if IsKind(l, "archive") then Some(l.archived == Some(true)) else None
  }

  predicate ByUser(l: Line) { IsKind(l, "message") && l.message.Some? && l.message.value.role == "user" }

  /** The text of a user's message: its string, or its text blocks one after the other. */
  function UserTextSaid(l: Line): Option<string>
  {
    if ByUser(l) then Said(ContentText(l.message.value.content)) else None
  }

  function KindSaid(l: Line): Option<string> { if l.Fields? then Some(l.kind) else None }

  function NamedSaid(l: Line): Option<(string, bool)>
  {
    if IsKind(l, "session_info") && l.name != "" then Some((l.name, l.autoTitle)) else None
  }

  // --- The summary ------------------------------------------------------------------------

  ghost predicate Means(f: Found, lines: seq<Line>, n: nat)
    requires n <= |lines|
  {
    && LastSays(lines, n, IdSaid, f.uuid, "") && LastSays(lines, n, CwdSaid, f.headerCwd, "")
    && LastSays(lines, n, HeaderNameSaid, f.headerName, "") && LastSays(lines, n, InfoNameSaid, f.infoName, "")
    && LastSays(lines, n, ActivitySaid, f.activity, "") && LastSays(lines, n, ModelSaid, (f.model, f.provider), ("", ""))
    && LastSays(lines, n, ArchivedSaid, f.archived, false) && FirstSays(lines, n, UserTextSaid, f.firstUserText, "")
  }

  lemma {:induction false} IdGrows(f: Found, lines: seq<Line>, n: nat)
    requires 0 < n <= |lines| && LastSays(lines, n - 1, IdSaid, f.uuid, "")
    ensures var g := SummaryStep(f, lines[n - 1]);
            LastSays(lines, n, IdSaid, g.uuid, "")
  {
    var g := SummaryStep(f, lines[n - 1]);
    LastGrows(lines, n, IdSaid, f.uuid, g.uuid, "");
  }

  lemma {:induction false} CwdGrows(f: Found, lines: seq<Line>, n: nat)
    requires 0 < n <= |lines| && LastSays(lines, n - 1, CwdSaid, f.headerCwd, "")
    ensures var g := SummaryStep(f, lines[n - 1]);
            LastSays(lines, n, CwdSaid, g.headerCwd, "")
  {
    var g := SummaryStep(f, lines[n - 1]);
    LastGrows(lines, n, CwdSaid, f.headerCwd, g.headerCwd, "");
  }

  lemma {:induction false} HeaderNameGrows(f: Found, lines: seq<Line>, n: nat)
    requires 0 < n <= |lines| && LastSays(lines, n - 1, HeaderNameSaid, f.headerName, "")
    ensures var g := SummaryStep(f, lines[n - 1]);
            LastSays(lines, n, HeaderNameSaid, g.headerName, "")
  {
    var g := SummaryStep(f, lines[n - 1]);
    LastGrows(lines, n, HeaderNameSaid, f.headerName, g.headerName, "");
  }

  lemma {:induction false} InfoNameGrows(f: Found, lines: seq<Line>, n: nat)
    requires 0 < n <= |lines| && LastSays(lines, n - 1, InfoNameSaid, f.infoName, "")
    ensures var g := SummaryStep(f, lines[n - 1]);
            LastSays(lines, n, InfoNameSaid, g.infoName, "")
  {
    var g := SummaryStep(f, lines[n - 1]);
    LastGrows(lines, n, InfoNameSaid, f.infoName, g.infoName, "");
  }

  lemma {:induction false} ActivityGrows(f: Found, lines: seq<Line>, n: nat)
    requires 0 < n <= |lines| && LastSays(lines, n - 1, ActivitySaid, f.activity, "")
    ensures var g := SummaryStep(f, lines[n - 1]);
            LastSays(lines, n, ActivitySaid, g.activity, "")
  {
    var g := SummaryStep(f, lines[n - 1]);
    LastGrows(lines, n, ActivitySaid, f.activity, g.activity, "");
  }

  lemma {:induction false} ModelGrows(f: Found, lines: seq<Line>, n: nat)
    requires 0 < n <= |lines| && LastSays(lines, n - 1, ModelSaid, (f.model, f.provider), ("", ""))
    ensures var g := SummaryStep(f, lines[n - 1]);
            LastSays(lines, n, ModelSaid, (g.model, g.provider), ("", ""))
  {
    var g := SummaryStep(f, lines[n - 1]);
    LastGrows(lines, n, ModelSaid, (f.model, f.provider), (g.model, g.provider), ("", ""));
  }

  lemma {:induction false} ArchivedGrows(f: Found, lines: seq<Line>, n: nat)
    requires 0 < n <= |lines| && LastSays(lines, n - 1, ArchivedSaid, f.archived, false)
    ensures var g := SummaryStep(f, lines[n - 1]);
            LastSays(lines, n, ArchivedSaid, g.archived, false)
  {
    var g := SummaryStep(f, lines[n - 1]);
    LastGrows(lines, n, ArchivedSaid, f.archived, g.archived, false);
  }

  lemma {:induction false} UserTextGrows(f: Found, lines: seq<Line>, n: nat)
    requires 0 < n <= |lines| && FirstSays(lines, n - 1, UserTextSaid, f.firstUserText, "")
    ensures var g := SummaryStep(f, lines[n - 1]);
            FirstSays(lines, n, UserTextSaid, g.firstUserText, "")
  {
    var g := SummaryStep(f, lines[n - 1]);
    FirstGrows(lines, n, UserTextSaid, f.firstUserText, g.firstUserText, "");
  }

  lemma {:induction false} FoundGrows(f: Found, lines: seq<Line>, n: nat)
    requires 0 < n <= |lines| && Means(f, lines, n - 1)
    ensures Means(SummaryStep(f, lines[n - 1]), lines, n)
  {
    IdGrows(f, lines, n);
    CwdGrows(f, lines, n);
    HeaderNameGrows(f, lines, n);
    InfoNameGrows(f, lines, n);
    ActivityGrows(f, lines, n);
    ModelGrows(f, lines, n);
    ArchivedGrows(f, lines, n);
    UserTextGrows(f, lines, n);
  }

  lemma {:induction false} FoundMeans(lines: seq<Line>, n: nat)
    requires n <= |lines|
    ensures Means(SummaryFound(lines, n), lines, n)
  {
    if n > 0 {
      FoundMeans(lines, n - 1);
      FoundGrows(SummaryFound(lines, n - 1), lines, n);
    }
  }

  /** On every log each field of the summary is what the last line that speaks of it says: the id, the project
      and whether it can be chatted in by the header's directory, the activity by the last timestamp, the
      model with its provider, the archive flag; the name by the last rename, else the header, else the first
      text of the user, cut at 80 characters, else the file. */
  lemma SummaryMeans(lines: seq<Line>, c: Context) returns (cwd: string, headerName: string, first: string)
    ensures var s := SummaryFrom(SummaryFound(lines, |lines|), c);
            && s.id == c.fileName && LastSays(lines, |lines|, IdSaid, s.uuid, "")
            && s.project == (if cwd != "" then CanonicalProject(cwd) else c.directory)
            && (s.chatAvailable <==> cwd == "" || c.cwdExists)
            && LastSays(lines, |lines|, ActivitySaid, s.activity, c.modTime)
            && LastSays(lines, |lines|, ModelSaid, (s.model, s.provider), ("", ""))
            && LastSays(lines, |lines|, ArchivedSaid, s.archived, false)
            && LastSays(lines, |lines|, InfoNameSaid, s.name,
                        if headerName != "" then headerName else if first != "" then Cut(first) else c.fileName)
    ensures LastSays(lines, |lines|, CwdSaid, cwd, "") && LastSays(lines, |lines|, HeaderNameSaid, headerName, "")
    ensures FirstSays(lines, |lines|, UserTextSaid, first, "")
  {
    var f := SummaryFound(lines, |lines|);
    FoundMeans(lines, |lines|);
    cwd, headerName, first := f.headerCwd, f.headerName, f.firstUserText;
  }

  /** At most 80 characters, the rest replaced by an ellipsis. */
  function Cut(s: string): string { if |s| > 80 then s[..80] + "…" else s }

  // --- The titler -------------------------------------------------------------------------

  ghost function UserMessages(lines: seq<Line>, n: nat): set<nat>
    requires n <= |lines|
  {
    set i: nat | i < n && ByUser(lines[i])
  }

  ghost predicate TitlesMean(t: Titles, lines: seq<Line>, n: nat)
    requires n <= |lines|
  {
    && LastSays(lines, n, HeaderNameSaid, t.headerName, "")
    && LastSays(lines, n, NamedSaid, (t.infoName, t.infoAuto), ("", false))
    && FirstSays(lines, n, UserTextSaid, t.first, "") && LastSays(lines, n, UserTextSaid, t.last, "")
    && LastSays(lines, n, KindSaid, t.lastType, "") && t.count == |UserMessages(lines, n)|
  }

  lemma {:induction false} MessagesGrow(lines: seq<Line>, n: nat)
    requires 0 < n <= |lines|
    ensures |UserMessages(lines, n)| == |UserMessages(lines, n - 1)| + if ByUser(lines[n - 1]) then 1 else 0
  {
    if ByUser(lines[n - 1]) {
      assert UserMessages(lines, n) == UserMessages(lines, n - 1) + {n - 1};
    } else {
      assert UserMessages(lines, n) == UserMessages(lines, n - 1);
    }
  }

  lemma {:induction false} TitleHeaderGrows(f: Titles, lines: seq<Line>, n: nat)
    requires 0 < n <= |lines| && LastSays(lines, n - 1, HeaderNameSaid, f.headerName, "")
    ensures var g := TitleStep(f, lines[n - 1]);
            LastSays(lines, n, HeaderNameSaid, g.headerName, "")
  {
    var g := TitleStep(f, lines[n - 1]);
    LastGrows(lines, n, HeaderNameSaid, f.headerName, g.headerName, "");
  }

  lemma {:induction false} TitleNameGrows(f: Titles, lines: seq<Line>, n: nat)
    requires 0 < n <= |lines| && LastSays(lines, n - 1, NamedSaid, (f.infoName, f.infoAuto), ("", false))
    ensures var g := TitleStep(f, lines[n - 1]);
            LastSays(lines, n, NamedSaid, (g.infoName, g.infoAuto), ("", false))
  {
    var g := TitleStep(f, lines[n - 1]);
    LastGrows(lines, n, NamedSaid, (f.infoName, f.infoAuto), (g.infoName, g.infoAuto), ("", false));
  }

  lemma {:induction false} TitleFirstGrows(f: Titles, lines: seq<Line>, n: nat)
    requires 0 < n <= |lines| && FirstSays(lines, n - 1, UserTextSaid, f.first, "")
    ensures var g := TitleStep(f, lines[n - 1]);
            FirstSays(lines, n, UserTextSaid, g.first, "")
  {
    var g := TitleStep(f, lines[n - 1]);
    FirstGrows(lines, n, UserTextSaid, f.first, g.first, "");
  }

  lemma {:induction false} TitleLastGrows(f: Titles, lines: seq<Line>, n: nat)
    requires 0 < n <= |lines| && LastSays(lines, n - 1, UserTextSaid, f.last, "")
    ensures var g := TitleStep(f, lines[n - 1]);
            LastSays(lines, n, UserTextSaid, g.last, "")
  {
    var g := TitleStep(f, lines[n - 1]);
    LastGrows(lines, n, UserTextSaid, f.last, g.last, "");
  }

  lemma {:induction false} TitleKindGrows(f: Titles, lines: seq<Line>, n: nat)
    requires 0 < n <= |lines| && LastSays(lines, n - 1, KindSaid, f.lastType, "")
    ensures var g := TitleStep(f, lines[n - 1]);
            LastSays(lines, n, KindSaid, g.lastType, "")
  {
    var g := TitleStep(f, lines[n - 1]);
    LastGrows(lines, n, KindSaid, f.lastType, g.lastType, "");
  }

  lemma {:induction false} TitlesGrow(t: Titles, lines: seq<Line>, n: nat)
    requires 0 < n <= |lines| && TitlesMean(t, lines, n - 1)
    ensures TitlesMean(TitleStep(t, lines[n - 1]), lines, n)
  {
    TitleHeaderGrows(t, lines, n);
    TitleNameGrows(t, lines, n);
    TitleFirstGrows(t, lines, n);
    TitleLastGrows(t, lines, n);
    TitleKindGrows(t, lines, n);
    MessagesGrow(lines, n);
  }

  lemma {:induction false} TitlesFoundMean(lines: seq<Line>, n: nat)
    requires n <= |lines|
    ensures TitlesMean(TitlesFound(lines, n), lines, n)
  {
    if n > 0 {
      TitlesFoundMean(lines, n - 1);
      TitlesGrow(TitlesFound(lines, n - 1), lines, n);
    } else {
      assert UserMessages(lines, 0) == {};
    }
  }

  /** What the titler goes by: the user's first and last text and number of messages, the last kind of line, and
      the name, which is explicit when a rename or the header gave one, and automatic when the last rename
      says so. */
  lemma TitleInputsMean(lines: seq<Line>) returns (t: Titles)
    ensures TitlesMean(t, lines, |lines|)
    ensures var x := TitlesFrom(TitlesFound(lines, |lines|));
            && x.firstUserText == t.first && x.lastUserText == t.last && x.userMessages == t.count
            && x.lastEntryType == t.lastType
            && x.currentName == (if t.infoName != "" then t.infoName else t.headerName)
            && (x.explicitName <==> t.infoName != "" || t.headerName != "")
            && (x.autoTitled <==> t.infoName != "" && t.infoAuto)
  {
    t := TitlesFound(lines, |lines|);
    TitlesFoundMean(lines, |lines|);
  }

  // --- The entries ------------------------------------------------------------------------

  /** Two session headers with the same id, timestamp and directory; the first two must be there. */
  predicate SameHeader(a: Line, b: Line)
  {
    && IsKind(a, "session") && IsKind(b, "session")
    && a.id != "" && a.timestamp.Some? && a.timestamp.value != ""
    && a.id == b.id && a.timestamp == b.timestamp && a.cwd == b.cwd
  }

  /** A NUL in an id or a timestamp would blur what the parts of a header's key are. */
  predicate NoNul(l: Line) { l.Fields? ==> '\0' !in l.id && (l.timestamp.Some? ==> '\0' !in l.timestamp.value) }

  lemma FirstNul(s: string, m: nat, n: nat)
    requires m < |s| && n < |s| && s[m] == '\0' && s[n] == '\0'
    requires (forall i :: 0 <= i < m ==> s[i] != '\0') && forall i :: 0 <= i < n ==> s[i] != '\0'
    ensures m == n
  {
  }

  /** A first part without a NUL can be told from what follows it. */
  lemma {:induction false} PartsAgree(a: string, x: string, b: string, y: string)
    requires '\0' !in a && '\0' !in b && a + "\0" + x == b + "\0" + y
    ensures a == b && x == y
  {
    var s, t := a + "\0" + x, b + "\0" + y;
    assert (forall i :: 0 <= i < |a| ==> s[i] == a[i]) && forall i :: 0 <= i < |b| ==> t[i] == b[i];
    FirstNul(s, |a|, |b|);
    assert a == s[..|a|] && b == t[..|b|] && x == s[|a| + 1..] && y == t[|b| + 1..];
  }

  lemma {:induction false} KeysOfHeaders(a: Line, b: Line)
    requires a.Fields? && b.Fields? && NoNul(a) && NoNul(b) && IsHeader(a) && IsHeader(b)
    ensures HeaderKey(a) == HeaderKey(b) <==> SameHeader(a, b)
  {
    var s, t := a.timestamp.value, b.timestamp.value;
    assert HeaderKey(a) == a.id + "\0" + (s + "\0" + a.cwd) && HeaderKey(b) == b.id + "\0" + (t + "\0" + b.cwd);
    if HeaderKey(a) == HeaderKey(b) {
      PartsAgree(a.id, s + "\0" + a.cwd, b.id, t + "\0" + b.cwd);
      PartsAgree(s, a.cwd, t, b.cwd);
    }
  }

  lemma {:induction false} KeyIsKnownIff(lines: seq<Line>, n: nat, key: string)
    requires n <= |lines|
    ensures key in HeaderKeys(lines, n) <==> exists i :: 0 <= i < n && IsHeader(lines[i]) && HeaderKey(lines[i]) == key
  {
    if n > 0 {
      KeyIsKnownIff(lines, n - 1, key);
    }
  }

  /** A line repeats a header exactly when a line before it is the same header. */
  lemma {:induction false} RepeatsIff(lines: seq<Line>, n: nat)
    requires n < |lines| && forall i :: 0 <= i <= n ==> NoNul(lines[i])
    ensures Repeats(lines, n) <==> exists i :: 0 <= i < n && SameHeader(lines[i], lines[n])
  {
    if IsHeader(lines[n]) {
      KeyIsKnownIff(lines, n, HeaderKey(lines[n]));
      forall i | 0 <= i < n && IsHeader(lines[i])
        ensures HeaderKey(lines[i]) == HeaderKey(lines[n]) <==> SameHeader(lines[i], lines[n])
      {
        KeysOfHeaders(lines[i], lines[n]);
      }
    }
  }

  function HeaderLine(id: string, timestamp: string, cwd: string): Line
  {
    Fields("session", id, Some(timestamp), cwd, "", None, "", "", None, false)
  }

  /** With a NUL in a timestamp a header can be taken for another one. */
  lemma NulsBlurHeaders()
    ensures var lines := [HeaderLine("a", "b", "c\0d"), HeaderLine("a", "b\0c", "d")];
            Repeats(lines, 1) && !SameHeader(lines[0], lines[1])
  {
    var lines := [HeaderLine("a", "b", "c\0d"), HeaderLine("a", "b\0c", "d")];
    assert HeaderKey(lines[0]) == "a\0b\0c\0d" == HeaderKey(lines[1]);
    KeyIsKnownIff(lines, 1, HeaderKey(lines[1]));
  }

  predicate MarksKept(lines: seq<Line>, keep: seq<bool>)
  {
    |keep| == |lines| && forall i :: 0 <= i < |lines| ==> (keep[i] <==> lines[i].Fields? && !Repeats(lines, i))
  }

  lemma {:induction false} EntriesAreFiltered(lines: seq<Line>, n: nat, keep: seq<bool>)
    requires n <= |lines| && MarksKept(lines, keep)
    ensures FileEntries(lines, n) == Filtered(lines[..n], keep[..n])
  {
    if n > 0 {
      EntriesAreFiltered(lines, n - 1, keep);
      OneMoreKept(lines, keep, n, FileEntries(lines, n - 1));
    }
  }

  /** The entries are the readable lines that repeat no header, in order; the header is the last of them that is
      a session line. */
  lemma {:induction false} EntriesInOrder(lines: seq<Line>, keep: seq<bool>)
    requires MarksKept(lines, keep)
    ensures FileEntries(lines, |lines|) == Filtered(lines, keep)
    ensures forall i :: 0 <= i < |lines| && LastHeader(lines, |lines|, keep, i) ==> FileHeader(lines, |lines|) == Some(lines[i])
    ensures (forall j :: 0 <= j < |lines| && keep[j] ==> !IsKind(lines[j], "session")) ==> FileHeader(lines, |lines|) == None
  {
    EntriesAreFiltered(lines, |lines|, keep);
    assert lines[..|lines|] == lines && keep[..|lines|] == keep;
    forall i | 0 <= i < |lines| && LastHeader(lines, |lines|, keep, i)
      ensures FileHeader(lines, |lines|) == Some(lines[i])
    {
      HeaderIsLast(lines, |lines|, keep, i);
    }
    if forall j :: 0 <= j < |lines| && keep[j] ==> !IsKind(lines[j], "session") {
      NoHeader(lines, |lines|, keep);
    }
  }

  predicate LastHeader(lines: seq<Line>, n: nat, keep: seq<bool>, i: nat)
    requires i < n <= |lines| == |keep|
  {
    && keep[i] && IsKind(lines[i], "session")
    && forall j :: i < j < n && keep[j] ==> !IsKind(lines[j], "session")
  }

  lemma {:induction false} HeaderIsLast(lines: seq<Line>, n: nat, keep: seq<bool>, i: nat)
    requires i < n <= |lines| && MarksKept(lines, keep) && LastHeader(lines, n, keep, i)
    ensures FileHeader(lines, n) == Some(lines[i])
    decreases n
  {
    if i < n - 1 {
      HeaderIsLast(lines, n - 1, keep, i);
    }
  }

  lemma {:induction false} NoHeader(lines: seq<Line>, n: nat, keep: seq<bool>)
    requires n <= |lines| && MarksKept(lines, keep) && forall j :: 0 <= j < n && keep[j] ==> !IsKind(lines[j], "session")
    ensures FileHeader(lines, n) == None
  {
    if n > 0 {
      NoHeader(lines, n - 1, keep);
    }
  }

  // --- Keys of projects ---------------------------------------------------------------------

  /** Two directories share a key exactly when they differ at most in the direction of slashes and, on a drive,
      in the case of ASCII letters. */
  lemma KeysAgreeIff(a: string, b: string)
    ensures CanonicalProject(a) == CanonicalProject(b) <==> SameInKeys(a, b)
  {
    KeyAt(a);
    KeyAt(b);
    var p, q := CanonicalProject(a), CanonicalProject(b);
    if |a| == |b| {
      assert p == q <==> forall i :: 0 <= i < |a| ==> p[i] == q[i];
    }
  }

  /** A colon follows the first character, which takes one byte. */
  predicate Volume(path: string) { path != "" && path[0] as int < 128 && ":" <= path[1..] }

  predicate SameInKeys(a: string, b: string)
  {
    |a| == |b| && forall i :: 0 <= i < |a| ==> SameInKey(a[i], b[i], Volume(a) && Volume(b))
  }

  predicate SameInKey(c: char, d: char, drive: bool)
  {
    || c == d || (c in {'/', '\\'} && d in {'/', '\\'})
    || (drive && (('A' <= c <= 'Z' && d as int == c as int + 32) || ('A' <= d <= 'Z' && c as int == d as int + 32)))
  }

  function KeyChar(c: char, drive: bool): char
  {
    if c == '\\' then '/' else if drive && 'A' <= c <= 'Z' then (c as int + 32) as char else c
  }

  lemma KeyAt(a: string)
    ensures var p := CanonicalProject(a);
            |p| == |a| && forall i :: 0 <= i < |a| ==> p[i] == KeyChar(a[i], Volume(a))
  {
  }
}
