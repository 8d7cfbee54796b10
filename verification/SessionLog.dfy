/**
 The session log (internal/sessions/session.go): an append-only file of lines forming a forest
 of entries; renaming, archiving and labelling append to it, fork and clone extract the path
 from a root to one entry.

 An id or parentId that is absent, null or not a string is the empty string, as in the source.
 */
module SessionLog {
  import opened Prelude
  import opened Text

  datatype Body =
    | Message(text: string)
    | SessionInfo(name: string, autoTitle: bool)
    | Archive(archived: bool)
    | Label(targetId: string, name: string)
    | Other(kind: string)

  datatype Entry = Entry(id: string, parentId: string, body: Body)

  datatype Line = Header(id: string, timestamp: string, cwd: string) | Logged(entry: Entry)

  function IdOf(l: Line): string { if l.Header? then l.id else l.entry.id }

  /** The first `n` lines without session headers. */
  function Entries(lines: seq<Line>, n: nat): seq<Entry>
    requires n <= |lines|
  {
    if n == 0 then []
    else if lines[n - 1].Header? then Entries(lines, n - 1)
    else Entries(lines, n - 1) + [lines[n - 1].entry]
  }

  function AllEntries(lines: seq<Line>): seq<Entry> { Entries(lines, |lines|) }

  /** The id of the last among the first `n` lines that has one, headers included; none if none has. */
  ghost predicate IsLeaf(lines: seq<Line>, n: nat, id: string)
    requires n <= |lines|
  {
    if id == "" then forall i :: 0 <= i < n ==> IdOf(lines[i]) == ""
    else exists i :: 0 <= i < n && IdOf(lines[i]) == id && forall j :: i < j < n ==> IdOf(lines[j]) == ""
  }

  // --- Walking up ----------------------------------------------------------------

  /** The by-id map over the first `n` entries: the last entry with an id wins. */
  function Lookup(es: seq<Entry>, n: nat, id: string): Option<Entry>
    requires n <= |es|
  {
    if n == 0 || id == "" then None
    else if es[n - 1].id == id then Some(es[n - 1])
    else Lookup(es, n - 1, id)
  }

  function Find(es: seq<Entry>, id: string): Option<Entry> { Lookup(es, |es|, id) }

  /** Where the walk goes from an entry; a self-loop counts as a root. */
  function Up(e: Entry): string { if e.parentId == e.id then "" else e.parentId }

  /** `path[i..]` is the walk from `id` to the end of its ancestry. */
  predicate WalkFrom(es: seq<Entry>, id: string, path: seq<Entry>, i: nat)
    requires i <= |path|
    decreases |path| - i
  {
    if i == |path| then Find(es, id) == None
    else Find(es, id) == Some(path[i]) && WalkFrom(es, Up(path[i]), path, i + 1)
  }

  /** `path` is the complete walk from `id`, target first. The source's walk ends exactly when
      there is such a path. */
  predicate IsWalk(es: seq<Entry>, id: string, path: seq<Entry>) { WalkFrom(es, id, path, 0) }

  lemma {:induction false} FoundEntry(es: seq<Entry>, n: nat, id: string) returns (i: nat)
    requires n <= |es| && Lookup(es, n, id).Some?
    ensures i < n && es[i] == Lookup(es, n, id).value && es[i].id == id && id != ""
  {
    if es[n - 1].id == id {
      i := n - 1;
    } else {
      i := FoundEntry(es, n - 1, id);
    }
  }

  lemma {:induction false} NotFound(es: seq<Entry>, n: nat, id: string, i: nat)
    requires i < n <= |es| && es[i].id == id && id != ""
    ensures Lookup(es, n, id).Some?
  {
    if es[n - 1].id != id {
      NotFound(es, n - 1, id, i);
    }
  }

  lemma {:induction false} WalkIsUnique(es: seq<Entry>, id: string, p: seq<Entry>, i: nat, q: seq<Entry>, j: nat)
    requires i <= |p| && j <= |q| && WalkFrom(es, id, p, i) && WalkFrom(es, id, q, j)
    ensures |p| - i == |q| - j
    ensures forall k :: i <= k < |p| ==> p[k] == q[k - i + j]
    decreases |p| - i
  {
    if i < |p| {
      WalkIsUnique(es, Up(p[i]), p, i + 1, q, j + 1);
    }
  }

  /** Suffixes of a walk are walks. */
  lemma {:induction false} WalkSuffix(es: seq<Entry>, id: string, path: seq<Entry>, i: nat, k: nat)
    requires i <= k < |path| && WalkFrom(es, id, path, i)
    ensures path[k].id != "" && Find(es, path[k].id) == Some(path[k]) && WalkFrom(es, path[k].id, path, k)
    decreases k - i
  {
    if i == k {
      var at := FoundEntry(es, |es|, id);
    } else {
      WalkSuffix(es, Up(path[i]), path, i + 1, k);
    }
  }

  /** No entry occurs twice on a walk that ends. */
  lemma {:induction false} WalkNeverRepeats(es: seq<Entry>, id: string, path: seq<Entry>, i: nat, j: nat)
    requires IsWalk(es, id, path) && i < j < |path|
    ensures path[i].id != path[j].id
  {
    WalkSuffix(es, id, path, 0, i);
    WalkSuffix(es, id, path, 0, j);
    if path[i].id == path[j].id {
      WalkIsUnique(es, path[i].id, path, i, path, j);
    }
  }

  // --- The forest ----------------------------------------------------------------

  /** Ids are distinct and no parent points forward. */
  ghost predicate Forest(es: seq<Entry>)
  {
    && (forall i, j :: 0 <= i < j < |es| && es[i].id != "" ==> es[i].id != es[j].id)
    && (forall i, j :: 0 <= i < j < |es| && es[i].parentId != "" ==> es[i].parentId != es[j].id)
  }

  /** In a forest every walk ends, going strictly back in the file. */
  lemma {:induction false} ForestWalk(es: seq<Entry>, id: string, n: nat) returns (path: seq<Entry>, at: seq<nat>)
    requires Forest(es) && n <= |es| && Find(es, id) == Lookup(es, n, id)
    ensures IsWalk(es, id, path)
    ensures |at| == |path| && forall k :: 0 <= k < |at| ==> at[k] < n && es[at[k]] == path[k]
    ensures forall k, l :: 0 <= k < l < |at| ==> at[l] < at[k]
    decreases n
  {
    if Find(es, id).None? {
      return [], [];
    }
    var i := FoundEntry(es, n, id);
    var up := Up(es[i]);
    ParentsComeBefore(es, i);
    var rest, restAt := ForestWalk(es, up, i);
    path, at := [es[i]] + rest, [i] + restAt;
    WalkShift(es, up, rest, path);
  }

  lemma ParentsComeBefore(es: seq<Entry>, i: nat)
    requires Forest(es) && i < |es|
    ensures Find(es, Up(es[i])) == Lookup(es, i, Up(es[i]))
  {
    OnlyBefore(es, |es|, i, Up(es[i]));
  }

  lemma {:induction false} OnlyBefore(es: seq<Entry>, n: nat, i: nat, id: string)
    requires i <= n <= |es| && forall j :: i <= j < n ==> es[j].id != id || id == ""
    ensures Lookup(es, n, id) == Lookup(es, i, id)
  {
    if i < n {
      OnlyBefore(es, n - 1, i, id);
    }
  }

  lemma {:induction false} WalkShiftFrom(es: seq<Entry>, id: string, rest: seq<Entry>, path: seq<Entry>, i: nat)
    requires i <= |rest| && |path| == |rest| + 1 && forall k :: 0 <= k < |rest| ==> path[k + 1] == rest[k]
    requires WalkFrom(es, id, rest, i)
    ensures WalkFrom(es, id, path, i + 1)
    decreases |rest| - i
  {
    if i < |rest| {
      WalkShiftFrom(es, Up(rest[i]), rest, path, i + 1);
    }
  }

  lemma WalkShift(es: seq<Entry>, id: string, rest: seq<Entry>, path: seq<Entry>)
    requires |path| == |rest| + 1 && path[1..] == rest && IsWalk(es, id, rest)
    ensures WalkFrom(es, id, path, 1)
  {
    WalkShiftFrom(es, id, rest, path, 0);
  }

  // --- When the walk ends --------------------------------------------------------

  /** The id the source's walk stands at after `n` steps up; it stops where it finds no entry. */
  function UpN(es: seq<Entry>, id: string, n: nat): string
    decreases n
  {
    if n == 0 then id
    else
      var e := Find(es, id);
      if e.None? then "" else UpN(es, Up(e.value), n - 1)
  }

  /** The walk stands at the id of some entry twice. */
  ghost predicate ComesBack(es: seq<Entry>, id: string)
  {
    exists m: nat, n: nat :: m < n && UpN(es, id, m) == UpN(es, id, n) && Find(es, UpN(es, id, m)).Some?
  }

  lemma {:induction false} UpSum(es: seq<Entry>, id: string, m: nat, n: nat)
    ensures Find(es, UpN(es, id, m)).None? && n > 0 ==> Find(es, UpN(es, id, m + n)).None?
    decreases m
  {
    if m > 0 && Find(es, id).Some? {
      UpSum(es, Up(Find(es, id).value), m - 1, n);
    }
  }

  lemma {:induction false} WalkVisits(es: seq<Entry>, id: string, path: seq<Entry>, i: nat, n: nat)
    requires i + n <= |path| && WalkFrom(es, id, path, i)
    ensures Find(es, UpN(es, id, n)) == if i + n < |path| then Some(path[i + n]) else None
    decreases n
  {
    if n > 0 {
      WalkVisits(es, Up(path[i]), path, i + 1, n - 1);
    }
  }

  lemma {:induction false} WalkFromWhereItStops(es: seq<Entry>, id: string, n: nat) returns (path: seq<Entry>)
    requires Find(es, UpN(es, id, n)).None?
    ensures IsWalk(es, id, path)
    decreases n
  {
    path := [];
    if Find(es, id).Some? {
      var rest := WalkFromWhereItStops(es, Up(Find(es, id).value), n - 1);
      path := [Find(es, id).value] + rest;
      WalkShift(es, Up(Find(es, id).value), rest, path);
    }
  }

  /** Where in the file the ids of the first `n` steps are found. */
  lemma {:induction false} VisitedAt(es: seq<Entry>, id: string, n: nat) returns (at: seq<nat>)
    requires forall k: nat :: k < n ==> Find(es, UpN(es, id, k)).Some?
    ensures |at| == n && forall k :: 0 <= k < n ==> at[k] < |es| && es[at[k]].id == UpN(es, id, k)
  {
    at := [];
    if n > 0 {
      at := VisitedAt(es, id, n - 1);
      assert Find(es, UpN(es, id, n - 1)).Some?;
      var i := FoundEntry(es, |es|, UpN(es, id, n - 1));
      at := at + [i];
    }
  }

  /** More numbers below `k` than there are must repeat. */
  lemma {:induction false} Pigeonhole(a: seq<nat>, k: nat) returns (i: nat, j: nat)
    requires |a| > k && forall x :: 0 <= x < |a| ==> a[x] < k
    ensures i < j < |a| && a[i] == a[j]
    decreases k
  {
    j := |a| - 1;
    assert a[j] < k;
    if x :| 0 <= x < j && a[x] == a[j] {
      i := x;
    } else {
      var b := seq(j, x requires 0 <= x < j => if a[x] == k - 1 then a[j] else a[x]);
      i, j := Pigeonhole(b, k - 1);
      assert b[i] == b[j];
    }
  }

  lemma WalkDoesNotComeBack(es: seq<Entry>, id: string, path: seq<Entry>, m: nat, n: nat)
    requires IsWalk(es, id, path) && m < n && Find(es, UpN(es, id, m)).Some?
    ensures UpN(es, id, m) != UpN(es, id, n)
  {
    WalkVisits(es, id, path, 0, |path|);
    if n >= |path| {
      UpSum(es, id, |path|, n - |path|);
    } else {
      WalkVisits(es, id, path, 0, m);
      WalkVisits(es, id, path, 0, n);
      WalkNeverRepeats(es, id, path, m, n);
    }
  }

  /** In any file whatever, the walk from an id ends exactly when it never comes back to an entry it
      has been at. */
  lemma WalkEndsIff(es: seq<Entry>, id: string)
    ensures (exists path :: IsWalk(es, id, path)) <==> !ComesBack(es, id)
  {
    if path :| IsWalk(es, id, path) {
      forall m: nat, n: nat | m < n && Find(es, UpN(es, id, m)).Some?
        ensures UpN(es, id, m) != UpN(es, id, n)
      {
        WalkDoesNotComeBack(es, id, path, m, n);
      }
    } else {
      forall n: nat
        ensures Find(es, UpN(es, id, n)).Some?
      {
        if Find(es, UpN(es, id, n)).None? {
          var path := WalkFromWhereItStops(es, id, n);
        }
      }
      var at := VisitedAt(es, id, |es| + 1);
      var m, n := Pigeonhole(at, |es|);
      assert UpN(es, id, m) == UpN(es, id, n) && Find(es, UpN(es, id, m)).Some?;
    }
  }

  /** An entry that is its own ancestor: the source's walk from it never ends. */
  lemma CycleNeverEnds(es: seq<Entry>, id: string, n: nat)
    requires n > 0 && Find(es, id).Some? && UpN(es, id, n) == id
    ensures !exists path :: IsWalk(es, id, path)
  {
    assert UpN(es, id, 0) == UpN(es, id, n);
    WalkEndsIff(es, id);
  }

  // --- Appending -----------------------------------------------------------------

  /** An id nobody uses or refers to yet. */
  ghost predicate FreshId(lines: seq<Line>, id: string)
  {
    id != "" && forall i :: 0 <= i < |lines| ==>
      IdOf(lines[i]) != id && (lines[i].Logged? ==> lines[i].entry.parentId != id)
  }

  /** What may be appended: a header, or an entry with a fresh id (or none) below nothing or below
      a line already there. */
  ghost predicate MayAppend(lines: seq<Line>, l: Line)
  {
    l.Logged? ==>
      && (l.entry.id == "" || FreshId(lines, l.entry.id))
      && (l.entry.parentId == "" || exists i :: 0 <= i < |lines| && IdOf(lines[i]) == l.entry.parentId)
  }

  /** A file that grew line by line that way. */
  ghost predicate Legal(lines: seq<Line>)
  {
    lines == [] || (MayAppend(lines[..|lines| - 1], lines[|lines| - 1]) && Legal(lines[..|lines| - 1]))
  }

  lemma {:induction false} EntriesPrefix(a: seq<Line>, b: seq<Line>, n: nat)
    requires n <= |a| && n <= |b| && forall i :: 0 <= i < n ==> a[i] == b[i]
    ensures Entries(a, n) == Entries(b, n)
  {
    if n > 0 {
      EntriesPrefix(a, b, n - 1);
    }
  }

  lemma EntriesSnoc(lines: seq<Line>, l: Line)
    ensures AllEntries(lines + [l]) == if l.Header? then AllEntries(lines) else AllEntries(lines) + [l.entry]
  {
    EntriesPrefix(lines + [l], lines, |lines|);
  }

  /** Every entry is one of the lines. */
  lemma {:induction false} EntryIsLogged(lines: seq<Line>, n: nat, i: nat) returns (j: nat)
    requires n <= |lines| && i < |Entries(lines, n)|
    ensures j < n && lines[j] == Logged(Entries(lines, n)[i])
  {
    if lines[n - 1].Logged? && i == |Entries(lines, n)| - 1 {
      j := n - 1;
    } else {
      j := EntryIsLogged(lines, n - 1, i);
    }
  }

  lemma FreshAmongEntries(lines: seq<Line>, id: string)
    requires FreshId(lines, id)
    ensures forall i :: 0 <= i < |AllEntries(lines)| ==>
      AllEntries(lines)[i].id != id && AllEntries(lines)[i].parentId != id
  {
    forall i | 0 <= i < |AllEntries(lines)|
      ensures AllEntries(lines)[i].id != id && AllEntries(lines)[i].parentId != id
    {
      var j := EntryIsLogged(lines, |lines|, i);
    }
  }

  /** Legal files are forests: renames, archives, labels and pi's own appends keep it so. */
  lemma {:induction false} LegalFilesAreForests(lines: seq<Line>)
    requires Legal(lines)
    ensures Forest(AllEntries(lines))
  {
    if lines != [] {
      var before, l := lines[..|lines| - 1], lines[|lines| - 1];
      LegalFilesAreForests(before);
      EntriesSnoc(before, l);
      assert lines == before + [l];
      if l.Logged? && l.entry.id != "" {
        FreshAmongEntries(before, l.entry.id);
      }
    }
  }

  /** The file after one entry was put below its leaf. */
  ghost predicate HungBelowLeaf(before: seq<Line>, after: seq<Line>, id: string, body: Body)
  {
    exists parentId :: IsLeaf(before, |before|, parentId) && after == before + [Logged(Entry(id, parentId, body))]
  }

  /** An entry below the last id in the file may be appended. */
  lemma {:induction false} AppendBelowLeafIsLegal(lines: seq<Line>, e: Entry)
    requires Legal(lines) && FreshId(lines, e.id) && IsLeaf(lines, |lines|, e.parentId)
    ensures Legal(lines + [Logged(e)])
  {
    assert (lines + [Logged(e)])[..|lines|] == lines;
  }

  lemma {:induction false} LookupPrefix(a: seq<Entry>, b: seq<Entry>, n: nat, id: string)
    requires n <= |a| && n <= |b| && forall i :: 0 <= i < n ==> a[i] == b[i]
    ensures Lookup(a, n, id) == Lookup(b, n, id)
  {
    if n > 0 {
      LookupPrefix(a, b, n - 1, id);
    }
  }

  lemma FindSnoc(es: seq<Entry>, e: Entry, id: string)
    ensures Find(es + [e], id) == if id != "" && e.id == id then Some(e) else Find(es, id)
  {
    LookupPrefix(es + [e], es, |es|, id);
  }

  /** Appending an entry with a fresh id changes no walk that was there. */
  lemma {:induction false} OldWalksStay(lines: seq<Line>, e: Entry, id: string, path: seq<Entry>, i: nat)
    requires FreshId(lines, e.id) && id != e.id
    requires i <= |path| && WalkFrom(AllEntries(lines), id, path, i)
    ensures WalkFrom(AllEntries(lines + [Logged(e)]), id, path, i)
    decreases |path| - i
  {
    var es := AllEntries(lines);
    EntriesSnoc(lines, Logged(e));
    FindSnoc(es, e, id);
    if i < |path| {
      var at := FoundEntry(es, |es|, id);
      FreshAmongEntries(lines, e.id);
      OldWalksStay(lines, e, Up(path[i]), path, i + 1);
    }
  }

  /** The walk from an appended entry is that entry followed by its parent's walk. */
  lemma {:induction false} AppendedWalk(lines: seq<Line>, e: Entry, walk: seq<Entry>)
    requires FreshId(lines, e.id) && e.parentId != e.id && IsWalk(AllEntries(lines), e.parentId, walk)
    ensures IsWalk(AllEntries(lines + [Logged(e)]), e.id, [e] + walk)
  {
    EntriesSnoc(lines, Logged(e));
    FindSnoc(AllEntries(lines), e, e.id);
    OldWalksStay(lines, e, e.parentId, walk, 0);
    WalkShift(AllEntries(lines + [Logged(e)]), e.parentId, walk, [e] + walk);
  }

  lemma LeafIsThat(lines: seq<Line>, i: nat, id: string)
    requires i < |lines| && IdOf(lines[i]) != "" && (forall j :: i < j < |lines| ==> IdOf(lines[j]) == "")
    requires IsLeaf(lines, |lines|, id)
    ensures id == IdOf(lines[i])
  {
    assert id != "";
  }

  /** A rename, archive or label entry stands below the last line that has an id, so its walk is that entry
      followed by the walk from there. */
  lemma HungEntryWalks(before: seq<Line>, after: seq<Line>, id: string, body: Body, i: nat, walk: seq<Entry>)
    requires FreshId(before, id) && HungBelowLeaf(before, after, id, body)
    requires i < |before| && IdOf(before[i]) != "" && forall j :: i < j < |before| ==> IdOf(before[j]) == ""
    requires IsWalk(AllEntries(before), IdOf(before[i]), walk)
    ensures var e := Entry(id, IdOf(before[i]), body);
            after == before + [Logged(e)] && IsWalk(AllEntries(after), id, [e] + walk)
  {
    var parentId :| IsLeaf(before, |before|, parentId) && after == before + [Logged(Entry(id, parentId, body))];
    LeafIsThat(before, i, parentId);
    AppendedWalk(before, Entry(id, parentId, body), walk);
  }

  /** With no id in the file the entry is a root. */
  lemma HungEntryIsRoot(before: seq<Line>, after: seq<Line>, id: string, body: Body)
    requires HungBelowLeaf(before, after, id, body) && forall i :: 0 <= i < |before| ==> IdOf(before[i]) == ""
    ensures after == before + [Logged(Entry(id, "", body))]
  {
    var parentId :| IsLeaf(before, |before|, parentId) && after == before + [Logged(Entry(id, parentId, body))];
  }

  /** So in a file grown by appends the whole conversation stays above it: the walk goes on to the last
      entry and all its ancestors. */
  lemma HungEntryKeepsTheConversation(before: seq<Line>, after: seq<Line>, id: string, body: Body, i: nat)
    returns (walk: seq<Entry>)
    requires Legal(before) && FreshId(before, id) && HungBelowLeaf(before, after, id, body)
    requires i < |before| && before[i].Logged? && IdOf(before[i]) != ""
    requires forall j :: i < j < |before| ==> IdOf(before[j]) == ""
    ensures IsWalk(AllEntries(before), IdOf(before[i]), walk) && walk != [] && walk[0].id == IdOf(before[i])
    ensures IsWalk(AllEntries(after), id, [Entry(id, IdOf(before[i]), body)] + walk)
  {
    LegalFilesAreForests(before);
    var at: seq<nat>;
    walk, at := ForestWalk(AllEntries(before), IdOf(before[i]), |AllEntries(before)|);
    var k := LoggedIsEntry(before, |before|, i);
    NotFound(AllEntries(before), |AllEntries(before)|, IdOf(before[i]), k);
    var found := FoundEntry(AllEntries(before), |AllEntries(before)|, IdOf(before[i]));
    HungEntryWalks(before, after, id, body, i, walk);
  }

  /** Where a logged line stands among the entries. */
  lemma {:induction false} LoggedIsEntry(lines: seq<Line>, n: nat, i: nat) returns (k: nat)
    requires i < n <= |lines| && lines[i].Logged?
    ensures k < |Entries(lines, n)| && Entries(lines, n)[k] == lines[i].entry
  {
    if i == n - 1 {
      k := |Entries(lines, n - 1)|;
    } else {
      k := LoggedIsEntry(lines, n - 1, i);
    }
  }

  // --- Fork and clone --------------------------------------------------------------

  function Reversed(es: seq<Entry>): (r: seq<Entry>)
    ensures |r| == |es|
    ensures forall i :: 0 <= i < |es| ==> r[i] == es[|es| - 1 - i]
  {
    seq(|es|, i requires 0 <= i < |es| => es[|es| - 1 - i])
  }

  predicate SameHeader(a: Line, b: Line)
  {
    a.Header? && b.Header? && a.id != "" && a.timestamp != "" && a == b
  }

  /** The header that counts among the first `n` lines: the last that does not repeat an earlier one. */
  function LastHeader(lines: seq<Line>, n: nat): Option<Line>
    requires n <= |lines|
  {
    if n == 0 then None
    else if lines[n - 1].Header? && !exists i :: 0 <= i < n - 1 && SameHeader(lines[i], lines[n - 1]) then Some(lines[n - 1])
    else LastHeader(lines, n - 1)
  }

  function Cwd(lines: seq<Line>): string
  {
    var h := LastHeader(lines, |lines|);
    if h.Some? && h.value.Header? then h.value.cwd else ""
  }

  /** The line is a header, and no line before it is the same header, if it has an id and a timestamp. */
  ghost predicate FirstOfItsKind(lines: seq<Line>, i: nat)
    requires i < |lines|
  {
    && lines[i].Header?
    && (lines[i].id == "" || lines[i].timestamp == "" || forall k :: 0 <= k < i ==> lines[k] != lines[i])
  }

  /** The directory of a branch is that of the last header that does not repeat an earlier one. */
  lemma {:induction false} CwdIs(lines: seq<Line>, i: nat)
    requires i < |lines| && FirstOfItsKind(lines, i) && forall j :: i < j < |lines| ==> !FirstOfItsKind(lines, j)
    ensures LastHeader(lines, |lines|) == Some(lines[i]) && Cwd(lines) == lines[i].cwd
  {
    LastHeaderIs(lines, |lines|, i);
  }

  lemma {:induction false} LastHeaderIs(lines: seq<Line>, n: nat, i: nat)
    requires i < n <= |lines| && FirstOfItsKind(lines, i) && forall j :: i < j < n ==> !FirstOfItsKind(lines, j)
    ensures LastHeader(lines, n) == Some(lines[i])
  {
    if i < n - 1 {
      assert !FirstOfItsKind(lines, n - 1);
      LastHeaderIs(lines, n - 1, i);
    }
  }

  /** Without any header there is none. */
  lemma {:induction false} NoHeaderNoCwd(lines: seq<Line>, n: nat)
    requires n <= |lines| && forall i :: 0 <= i < n ==> !lines[i].Header?
    ensures LastHeader(lines, n) == None && (n == |lines| ==> Cwd(lines) == "")
  {
    if n > 0 {
      NoHeaderNoCwd(lines, n - 1);
    }
  }

  datatype BranchError = MissingCwd | TargetNotFound

  datatype Branch = Branch(cwd: string, forkedFrom: Option<string>, entries: seq<Entry>)

  /** The file a branch is written to. */
  function BranchLines(b: Branch, id: string, timestamp: string): seq<Line>
  {
    [Header(id, timestamp, b.cwd)] + seq(|b.entries|, i requires 0 <= i < |b.entries| => Logged(b.entries[i]))
  }

  lemma FoundOnWalk(es: seq<Entry>, target: string, walk: seq<Entry>, k: nat)
    requires IsWalk(es, target, walk) && k < |walk|
    ensures Find(Reversed(walk), walk[k].id) == Some(walk[k])
  {
    var rev := Reversed(walk);
    WalkSuffix(es, target, walk, 0, k);
    assert rev[|walk| - 1 - k] == walk[k];
    NotFound(rev, |rev|, walk[k].id, |walk| - 1 - k);
    var i := FoundEntry(rev, |rev|, walk[k].id);
    var l := |walk| - 1 - i;
    if l < k {
      WalkNeverRepeats(es, target, walk, l, k);
    } else if k < l {
      WalkNeverRepeats(es, target, walk, k, l);
    }
  }

  /** Where a walk leaves the file, it leaves the branch too. */
  lemma MissingOnWalk(es: seq<Entry>, target: string, walk: seq<Entry>, id: string)
    requires IsWalk(es, target, walk) && Find(es, id) == None
    ensures Find(Reversed(walk), id) == None
  {
    var rev := Reversed(walk);
    if Find(rev, id).Some? {
      var i := FoundEntry(rev, |rev|, id);
      WalkSuffix(es, target, walk, 0, |walk| - 1 - i);
    }
  }

  lemma {:induction false} BranchWalk(es: seq<Entry>, target: string, walk: seq<Entry>, id: string, k: nat)
    requires IsWalk(es, target, walk) && k <= |walk| && WalkFrom(es, id, walk, k)
    ensures WalkFrom(Reversed(walk), id, walk, k)
    decreases |walk| - k
  {
    if k == |walk| {
      MissingOnWalk(es, target, walk, id);
    } else {
      var i := FoundEntry(es, |es|, id);
      FoundOnWalk(es, target, walk, k);
      BranchWalk(es, target, walk, Up(walk[k]), k + 1);
    }
  }

  /** Forking a fork at the same target writes the same chain, and so does forking it anywhere
      on the way: the branch has the same ancestry for each of its entries. */
  lemma {:induction false} ForkOfForkIsTheSame(es: seq<Entry>, target: string, walk: seq<Entry>)
    requires IsWalk(es, target, walk)
    ensures IsWalk(Reversed(walk), target, walk)
    ensures forall k :: 0 <= k < |walk| ==> WalkFrom(Reversed(walk), walk[k].id, walk, k)
  {
    BranchWalk(es, target, walk, target, 0);
    forall k | 0 <= k < |walk|
      ensures WalkFrom(Reversed(walk), walk[k].id, walk, k)
    {
      WalkSuffix(es, target, walk, 0, k);
      BranchWalk(es, target, walk, walk[k].id, k);
    }
  }

  /** A branch is itself a forest, whatever the file it came from. */
  lemma {:induction false} BranchesAreForests(es: seq<Entry>, target: string, walk: seq<Entry>)
    requires IsWalk(es, target, walk)
    ensures Forest(Reversed(walk))
  {
    var rev := Reversed(walk);
    var n := |walk|;
    forall i, j | 0 <= i < j < n
      ensures rev[i].id != rev[j].id
      ensures rev[i].parentId != "" ==> rev[i].parentId != rev[j].id
    {
      var a, b := n - 1 - i, n - 1 - j;
      WalkNeverRepeats(es, target, walk, b, a);
      WalkSuffix(es, target, walk, 0, a);
      WalkSuffix(es, target, walk, 0, b);
      if rev[i].parentId != "" && rev[i].parentId == rev[j].id {
        assert WalkFrom(es, walk[b].id, walk, a + 1);
        WalkIsUnique(es, walk[b].id, walk, a + 1, walk, b);
      }
    }
  }

  lemma {:induction false} BranchEntriesFrom(b: Branch, id: string, timestamp: string, n: nat)
    requires n <= |b.entries|
    ensures Entries(BranchLines(b, id, timestamp), n + 1) == b.entries[..n]
  {
    if n > 0 {
      BranchEntriesFrom(b, id, timestamp, n - 1);
      assert b.entries[..n] == b.entries[..n - 1] + [b.entries[n - 1]];
    } else {
      assert Entries(BranchLines(b, id, timestamp), 0) == [];
    }
  }

  lemma {:induction false} OnlyHeader(lines: seq<Line>, n: nat)
    requires 0 < n <= |lines| && lines[0].Header? && forall i :: 0 < i < |lines| ==> !lines[i].Header?
    ensures LastHeader(lines, n) == Some(lines[0])
  {
    if n > 1 {
      OnlyHeader(lines, n - 1);
    }
  }

  /** Reading a branch file back gives the chain that was written and, by the one header before it, the directory. */
  lemma {:induction false} BranchFileHoldsTheChain(b: Branch, id: string, timestamp: string)
    ensures AllEntries(BranchLines(b, id, timestamp)) == b.entries
    ensures var lines := BranchLines(b, id, timestamp);
            && lines[0].Header? && lines[0].id == id && lines[0].timestamp == timestamp && lines[0].cwd == b.cwd
            && Cwd(lines) == b.cwd
  {
    var lines := BranchLines(b, id, timestamp);
    OnlyHeader(lines, |lines|);
    BranchEntriesFrom(b, id, timestamp, |b.entries|);
    assert b.entries[..|b.entries|] == b.entries;
  }

  /** What a branch is made of, without running the walk: it ends in the target, each entry's
      parent is the entry before it, and the first has no parent in the file. */
  lemma {:induction false} ChainShape(es: seq<Entry>, target: string, walk: seq<Entry>)
    requires IsWalk(es, target, walk) && walk != []
    ensures var chain := Reversed(walk);
            && chain[|chain| - 1].id == target
            && (forall i :: 0 < i < |chain| ==> chain[i].parentId == chain[i - 1].id && chain[i - 1].id != chain[i].id)
            && (chain[0].parentId == chain[0].id || Find(es, chain[0].parentId) == None)
  {
    var chain, n := Reversed(walk), |walk|;
    WalkSuffix(es, target, walk, 0, n - 1);
    var at := FoundEntry(es, |es|, target);
    forall i | 0 < i < n
      ensures chain[i].parentId == chain[i - 1].id && chain[i - 1].id != chain[i].id
    {
      var k := n - 1 - i;
      WalkSuffix(es, target, walk, 0, k);
      WalkSuffix(es, target, walk, 0, k + 1);
      var j := FoundEntry(es, |es|, Up(walk[k]));
    }
  }

  method ReadForBranch(lines: seq<Line>) returns (header: Option<Line>, entries: seq<Entry>)
    ensures header == LastHeader(lines, |lines|) && entries == AllEntries(lines)
  {
    header, entries := None, [];
    var seen: set<Line> := {};
    for n := 0 to |lines|
      invariant header == LastHeader(lines, n) && entries == Entries(lines, n)
      invariant seen == set i | 0 <= i < n && lines[i].Header? && lines[i].id != "" && lines[i].timestamp != "" :: lines[i]
    {
      var raw := lines[n];
      match raw
      case Header(id, timestamp, _) =>
        var keyed := id != "" && timestamp != "";
        if !(keyed && raw in seen) {
          assert !exists i :: 0 <= i < n && SameHeader(lines[i], raw);
          header := Some(raw);
        }
        if keyed {
          seen := seen + {raw};
        }
      case Logged(e) => entries := entries + [e];
    }
  }

  method IndexById(entries: seq<Entry>) returns (byId: map<string, Entry>)
    ensures forall id :: id in byId <==> Find(entries, id).Some?
    ensures forall id :: id in byId ==> Find(entries, id) == Some(byId[id])
  {
    byId := map[];
    for n := 0 to |entries|
      invariant forall id :: id in byId <==> Lookup(entries, n, id).Some?
      invariant forall id :: id in byId ==> Lookup(entries, n, id) == Some(byId[id])
    {
      if entries[n].id != "" {
        byId := byId[entries[n].id := entries[n]];
      }
    }
  }

  /**
   createBranchSessionFile up to writing the file. `walk` witnesses that the walk from the
   target ends, which is exactly what the source needs to return at all.
   */
  method CreateBranch(lines: seq<Line>, target: string, isFork: bool, ghost walk: seq<Entry>)
    returns (r: Result<Branch, BranchError>)
    requires IsWalk(AllEntries(lines), target, walk)
    ensures r == if Cwd(lines) == "" then Err(MissingCwd)
                 else if walk == [] then Err(TargetNotFound)
                 else Ok(Branch(Cwd(lines), if isFork then Some(target) else None, Reversed(walk)))
  {
    var header, entries := ReadForBranch(lines);
    var cwd := if header.Some? && header.value.Header? then header.value.cwd else "";
    if cwd == "" {
      return Err(MissingCwd);
    }
    var byId := IndexById(entries);
    var path: seq<Entry> := [];
    var current := target;
    var more := true;
    while more && current != ""
      invariant |path| <= |walk| && path == walk[..|path|]
      invariant more ==> WalkFrom(entries, current, walk, |path|)
      invariant !more ==> |path| == |walk|
      decreases |walk| - |path|, more
    {
      if current !in byId {
        more := false;
      } else {
        var entry := byId[current];
        path := path + [entry];
        var at := FoundEntry(entries, |entries|, current);
        var up := entry.parentId;
        if up == "" || up == current {
          more := false;
        } else {
          current := up;
        }
      }
    }
    assert path == walk;
    if |path| == 0 {
      return Err(TargetNotFound);
    }
    path := ReverseInPlace(path);
    r := Ok(Branch(cwd, if isFork then Some(target) else None, path));
  }

  method ReverseInPlace(es: seq<Entry>) returns (r: seq<Entry>)
    ensures r == Reversed(es)
  {
    r := es;
    var i, j := 0, |es| - 1;
    while i < j
      invariant 0 <= i <= |es| && -1 <= j < |es| && i + j == |es| - 1 && |r| == |es|
      invariant forall k :: i <= k <= j ==> r[k] == es[k]
      invariant forall k :: 0 <= k < i || j < k < |es| ==> r[k] == Reversed(es)[k]
    {
      r := r[i := r[j]][j := r[i]];
      i, j := i + 1, j - 1;
    }
  }

  // --- The file ------------------------------------------------------------------

  datatype AppendError = EmptySessionName | EntryNotFound

  class SessionFile {
    var lines: seq<Line>

    /** A session as pi-web creates it: a header and, if chosen, the initial model and thinking level. */
    constructor Create(header: Line, modelId: string, thinkingId: string)
      requires header.Header? && modelId != thinkingId
      requires modelId != header.id && thinkingId != header.id
      ensures Legal(lines) && LastHeader(lines, |lines|) == Some(header)
      ensures AllEntries(lines) ==
              (if modelId == "" then [] else [Entry(modelId, "", Other("model_change"))]) +
              (if thinkingId == "" then [] else [Entry(thinkingId, modelId, Other("thinking_level_change"))])
    {
      lines := [header];
      new;
      assert Legal([]) && [header][..0] == [] && [] + [header] == [header];
      EntriesSnoc([], header);
      if modelId != "" {
        Append(Entry(modelId, "", Other("model_change")));
      }
      if thinkingId != "" {
        Append(Entry(thinkingId, modelId, Other("thinking_level_change")));
      }
    }

    method Append(e: Entry)
      requires Legal(lines) && MayAppend(lines, Logged(e))
      modifies this
      ensures lines == old(lines) + [Logged(e)] && Legal(lines)
      ensures AllEntries(lines) == AllEntries(old(lines)) + [e]
      ensures LastHeader(lines, |lines|) == LastHeader(old(lines), |old(lines)|)
    {
      EntriesSnoc(lines, Logged(e));
      lines := lines + [Logged(e)];
      assert lines[..|lines| - 1] == old(lines);
      LastHeaderPrefix(lines, old(lines), |old(lines)|);
    }

    method CurrentLeaf() returns (parentId: string)
      ensures IsLeaf(lines, |lines|, parentId)
    {
      parentId := "";
      for n := 0 to |lines|
        invariant IsLeaf(lines, n, parentId)
      {
        if IdOf(lines[n]) != "" {
          parentId := IdOf(lines[n]);
        }
      }
    }

    method AppendBelowLeaf(id: string, body: Body)
      requires Legal(lines) && FreshId(lines, id)
      modifies this
      ensures Legal(lines) && HungBelowLeaf(old(lines), lines, id, body)
    {
      var parentId := CurrentLeaf();
      AppendBelowLeafIsLegal(lines, Entry(id, parentId, body));
      lines := lines + [Logged(Entry(id, parentId, body))];
    }

    method AppendSessionName(name: string, auto: bool, id: string) returns (r: Result<(), AppendError>)
      requires Legal(lines) && FreshId(lines, id)
      modifies this
      ensures Legal(lines) && (r.Ok? <==> Trim(name) != "") && (r.Err? ==> r.error == EmptySessionName)
      ensures if r.Err? then lines == old(lines) else HungBelowLeaf(old(lines), lines, id, SessionInfo(Trim(name), auto))
    {
      if Trim(name) == "" {
        return Err(EmptySessionName);
      }
      AppendBelowLeaf(id, SessionInfo(Trim(name), auto));
      r := Ok(());
    }

    method ArchiveSession(archived: bool, id: string)
      requires Legal(lines) && FreshId(lines, id)
      modifies this
      ensures Legal(lines) && HungBelowLeaf(old(lines), lines, id, Archive(archived))
    {
      AppendBelowLeaf(id, Archive(archived));
    }

    /** The target must be the id of some line; headers count. */
    method LabelSessionEntry(targetId: string, name: string, id: string) returns (r: Result<(), AppendError>)
      requires Legal(lines) && FreshId(lines, id)
      modifies this
      ensures Legal(lines) && (r.Err? ==> r.error == EntryNotFound)
      ensures r.Ok? <==> Trim(targetId) != "" && exists i :: 0 <= i < |old(lines)| && IdOf(old(lines)[i]) == Trim(targetId)
      ensures if r.Err? then lines == old(lines) else HungBelowLeaf(old(lines), lines, id, Label(Trim(targetId), Trim(name)))
    {
      var target := Trim(targetId);
      if target == "" {
        return Err(EntryNotFound);
      }
      var ids: set<string> := {};
      for n := 0 to |lines|
        invariant ids == (set i | 0 <= i < n && IdOf(lines[i]) != "" :: IdOf(lines[i]))
      {
        if IdOf(lines[n]) != "" {
          ids := ids + {IdOf(lines[n])};
        }
      }
      if target !in ids {
        return Err(EntryNotFound);
      }
      AppendBelowLeaf(id, Label(target, Trim(name)));
      r := Ok(());
    }
  }

  lemma {:induction false} LastHeaderPrefix(a: seq<Line>, b: seq<Line>, n: nat)
    requires n <= |a| && n <= |b| && forall i :: 0 <= i < n ==> a[i] == b[i]
    ensures LastHeader(a, n) == LastHeader(b, n)
  {
    if n > 0 {
      LastHeaderPrefix(a, b, n - 1);
    }
  }
}
