/**
 The browser's model of one session (web/src/session/data/session-data.svelte.js and
 session-data.js, relinkOrphanMetadata of web/src/session/tree/session-tree.js): merging
 server windows that may arrive in any order with history the user loaded.
 */
module SessionModel {
  import opened Prelude

  datatype ToolCall = ToolCall(id: string, name: string)

  datatype Body =
    | Assistant(calls: seq<ToolCall>)
    | ToolResult(callId: string)
    | Label(targetId: string, text: string)
    | SettingChange  // model_change and thinking_level_change
    | Other

  datatype Entry = Entry(id: string, parentId: Option<string>, body: Body)

  // --- Relinking -----------------------------------------------------------------

  /** A setting change without a parent of its own is threaded below the entry before it. */
  function Relink(e: Entry, lastId: string): Entry
  {
    if e.id != "" && lastId != "" && e.body.SettingChange? && (e.parentId.None? || e.parentId.value == e.id)
    then e.(parentId := Some(lastId)) else e
  }

  function LastId(es: seq<Entry>, n: nat): string
    requires n <= |es|
  {
    if n == 0 then "" else if es[n - 1].id != "" then es[n - 1].id else LastId(es, n - 1)
  }

  /** The first `n` entries relinked. */
  function RelinkedTo(es: seq<Entry>, n: nat): (r: seq<Entry>)
    requires n <= |es|
    ensures |r| == n && forall i :: 0 <= i < n ==> r[i].id == es[i].id
  {
    if n == 0 then [] else RelinkedTo(es, n - 1) + [Relink(es[n - 1], LastId(es, n - 1))]
  }

  function Relinked(es: seq<Entry>): (r: seq<Entry>)
    ensures |r| == |es|
  {
    RelinkedTo(es, |es|)
  }

  lemma {:induction false} RelinkedAt(es: seq<Entry>, n: nat, i: nat)
    requires i < n <= |es|
    ensures RelinkedTo(es, n)[i] == Relink(es[i], LastId(es, i))
  {
    if i < n - 1 {
      RelinkedAt(es, n - 1, i);
    }
  }

  predicate Orphan(e: Entry)
  {
    e.body.SettingChange? && e.id != "" && (e.parentId == None || e.parentId == Some(e.id))
  }

  /** The nearest entry before `i` that has an id is the one at `j`. */
  predicate NearestBefore(es: seq<Entry>, i: nat, j: int)
    requires i < |es|
  {
    0 <= j < i && es[j].id != "" && forall k :: j < k < i ==> es[k].id == ""
  }

  lemma {:induction false} NearestIsLast(es: seq<Entry>, i: nat, n: nat)
    requires i < |es| && n <= i
    ensures (forall j :: NearestBefore(es, i, j) && j < n ==> LastId(es, n) == es[j].id)
    ensures (forall k :: 0 <= k < n ==> es[k].id == "") ==> LastId(es, n) == ""
  {
    if n > 0 {
      NearestIsLast(es, i, n - 1);
    }
  }

  /** Only orphans change, and only in their parent: it becomes the nearest entry before that has an id, if
      there is one. */
  lemma {:induction false} OrphansAreThreaded(es: seq<Entry>, i: nat)
    requires i < |es|
    ensures var r := Relinked(es)[i];
            && (forall j :: Orphan(es[i]) && NearestBefore(es, i, j) ==> r == es[i].(parentId := Some(es[j].id)))
            && (!Orphan(es[i]) || (forall k :: 0 <= k < i ==> es[k].id == "") ==> r == es[i])
  {
    RelinkedAt(es, |es|, i);
    NearestIsLast(es, i, i);
  }

  // --- Merging -------------------------------------------------------------------

  /** Some of the first `n` entries has the id. */
  predicate HasIdTo(es: seq<Entry>, n: nat, id: string)
    requires n <= |es|
  {
    n > 0 && (es[n - 1].id == id || HasIdTo(es, n - 1, id))
  }

  predicate HasId(es: seq<Entry>, id: string) { HasIdTo(es, |es|, id) }

  lemma {:induction false} HasIdAt(es: seq<Entry>, n: nat, i: nat)
    requires i < n <= |es|
    ensures HasIdTo(es, n, es[i].id)
  {
    if i < n - 1 {
      HasIdAt(es, n - 1, i);
    }
  }

  lemma {:induction false} WhereIdIs(es: seq<Entry>, n: nat, id: string) returns (i: nat)
    requires n <= |es| && HasIdTo(es, n, id)
    ensures i < n && es[i].id == id
  {
    i := n - 1;
    if es[i].id != id {
      i := WhereIdIs(es, n - 1, id);
    }
  }

  /** How many existing entries, from `i` on, come before the first one the window covers. */
  function PrefixFrom(existing: seq<Entry>, incoming: seq<Entry>, i: nat): (r: nat)
    requires i <= |existing|
    ensures i <= r <= |existing|
    decreases |existing| - i
  {
    if i == |existing| || (existing[i].id != "" && HasId(incoming, existing[i].id)) then i
    else PrefixFrom(existing, incoming, i + 1)
  }

  function NewestId(es: seq<Entry>): string { if es == [] then "" else es[|es| - 1].id }

  /** The window overlaps what is there but lacks the newest entry: it is out of date. */
  predicate OutOfDate(existing: seq<Entry>, incoming: seq<Entry>)
  {
    NewestId(existing) != "" && PrefixFrom(existing, incoming, 0) < |existing| && !HasId(incoming, NewestId(existing))
  }

  function Merged(existing: seq<Entry>, incoming: seq<Entry>): seq<Entry>
  {
    Relinked(existing[..PrefixFrom(existing, incoming, 0)] + incoming)
  }

  function Reconciled(existing: seq<Entry>, incoming: seq<Entry>): seq<Entry>
  {
    if incoming == [] || OutOfDate(existing, incoming) then existing
    else
      var merged := Merged(existing, incoming);
      if |merged| == |existing| && NewestId(merged) == NewestId(existing) then existing else merged
  }

  /** A response that is not out of date brings the model to its own newest entry. */
  lemma {:induction false} NewestIsServed(existing: seq<Entry>, incoming: seq<Entry>)
    requires incoming != [] && !OutOfDate(existing, incoming)
    ensures var r := Reconciled(existing, incoming);
            NewestId(r) == NewestId(incoming) && |r| == PrefixFrom(existing, incoming, 0) + |incoming|
  {
    var joined := existing[..PrefixFrom(existing, incoming, 0)] + incoming;
    assert joined[|joined| - 1] == incoming[|incoming| - 1];
    assert Merged(existing, incoming)[|joined| - 1].id == joined[|joined| - 1].id;
  }

  // --- Windows of the log ----------------------------------------------------------

  /** The full session log, as it will be when all is said: every entry has an id of its own. */
  ghost predicate Log(log: seq<Entry>)
  {
    && (forall i :: 0 <= i < |log| ==> log[i].id != "")
    && forall i, j :: 0 <= i < j < |log| ==> log[i].id != log[j].id
  }

  /** What the model shows of entry `k` when its window starts at `from`. */
  function Shown(log: seq<Entry>, from: nat, k: nat): Entry
    requires from <= k < |log|
  {
    if k == from then log[k] else Relink(log[k], log[k - 1].id)
  }

  /** `es` is the stretch `from..to` of the log as the server sends it. */
  ghost predicate Raw(es: seq<Entry>, log: seq<Entry>, from: nat, to: nat)
  {
    && from <= to <= |log| && |es| == to - from
    && forall i :: 0 <= i < |es| ==> es[i] == log[from + i]
  }

  /** `es` is the stretch `from..to` of the log as the model holds it. */
  ghost predicate Window(es: seq<Entry>, log: seq<Entry>, from: nat, to: nat)
  {
    && from <= to <= |log| && |es| == to - from
    && forall i :: 0 <= i < |es| ==> es[i] == Shown(log, from, from + i)
  }

  lemma LastIdIsPrevious(es: seq<Entry>, i: nat)
    requires 0 < i <= |es| && es[i - 1].id != ""
    ensures LastId(es, i) == es[i - 1].id
  {
  }

  lemma InWindow(es: seq<Entry>, log: seq<Entry>, from: nat, to: nat, k: nat)
    requires Log(log) && k < |log| && (Window(es, log, from, to) || Raw(es, log, from, to))
    ensures HasId(es, log[k].id) <==> from <= k < to
  {
    if from <= k < to {
      assert es[k - from].id == log[k].id;
      HasIdAt(es, |es|, k - from);
    }
    if HasId(es, log[k].id) {
      var i := WhereIdIs(es, |es|, log[k].id);
      assert es[i].id == log[from + i].id;
    }
  }

  /** The prefix kept of a window is what lies before the incoming one. */
  lemma {:induction false} PrefixOfWindow(es: seq<Entry>, log: seq<Entry>, from: nat, to: nat,
                                          incoming: seq<Entry>, f: nat, g: nat, i: nat)
    requires Log(log) && Window(es, log, from, to) && Raw(incoming, log, f, g) && f < g && i <= |es|
    requires from + i <= f || (i == 0 && from < g)
    ensures PrefixFrom(es, incoming, i) == if f >= to then |es| else if from <= f then f - from else 0
    decreases |es| - i
  {
    if i < |es| {
      assert es[i].id == log[from + i].id;
      InWindow(incoming, log, f, g, from + i);
      if !HasId(incoming, es[i].id) {
        PrefixOfWindow(es, log, from, to, incoming, f, g, i + 1);
      }
    }
  }

  /** A window behind what is there matches nothing and is kept out of no prefix. */
  lemma {:induction false} PrefixOfLaterWindow(es: seq<Entry>, log: seq<Entry>, from: nat, to: nat,
                                               incoming: seq<Entry>, f: nat, g: nat, i: nat)
    requires Log(log) && Window(es, log, from, to) && Raw(incoming, log, f, g) && g <= from && i <= |es|
    ensures PrefixFrom(es, incoming, i) == |es|
    decreases |es| - i
  {
    if i < |es| {
      assert es[i].id == log[from + i].id;
      InWindow(incoming, log, f, g, from + i);
      PrefixOfLaterWindow(es, log, from, to, incoming, f, g, i + 1);
    }
  }

  /** Entry `k` of the log, relinked already or not. */
  predicate Either(e: Entry, log: seq<Entry>, from: nat, k: nat)
    requires k < |log|
  {
    e == log[k] || (k > from && e == Relink(log[k], log[k - 1].id))
  }

  /** Relinking a stretch some of which was relinked before relinks all of it. */
  lemma RelinkedOnce(es: seq<Entry>, log: seq<Entry>, from: nat, i: nat)
    requires Log(log) && from + |es| <= |log| && i < |es|
    requires Either(es[i], log, from, from + i) && (i > 0 ==> es[i - 1].id == log[from + i - 1].id)
    ensures Relinked(es)[i] == Shown(log, from, from + i)
  {
    RelinkedAt(es, |es|, i);
    if i > 0 {
      LastIdIsPrevious(es, i);
    }
  }

  lemma RelinkedIsWindow(es: seq<Entry>, log: seq<Entry>, from: nat)
    requires Log(log) && from + |es| <= |log|
    requires forall i :: 0 <= i < |es| ==> Either(es[i], log, from, from + i)
    ensures Window(Relinked(es), log, from, from + |es|)
  {
    forall i | 0 <= i < |es|
      ensures Relinked(es)[i] == Shown(log, from, from + i)
    {
      if i > 0 {
        assert Either(es[i - 1], log, from, from + i - 1);
      }
      RelinkedOnce(es, log, from, i);
    }
  }

  /** The initial load relinks what the server sent: a window. */
  lemma HydratedIsWindow(es: seq<Entry>, log: seq<Entry>, from: nat, to: nat)
    requires Log(log) && Raw(es, log, from, to)
    ensures Window(Relinked(es), log, from, to)
  {
    assert forall i :: 0 <= i < |es| ==> Either(es[i], log, from, from + i);
    RelinkedIsWindow(es, log, from);
  }

  /** Keeping `n` entries of a window and continuing it with the raw rest gives a window. */
  lemma JoinedIsWindow(es: seq<Entry>, log: seq<Entry>, from: nat, to: nat, n: nat, incoming: seq<Entry>, g: nat)
    requires Log(log) && Window(es, log, from, to) && n <= |es| && Raw(incoming, log, from + n, g)
    ensures Window(Relinked(es[..n] + incoming), log, from, g)
  {
    var joined := es[..n] + incoming;
    forall i | 0 <= i < |joined|
      ensures Either(joined[i], log, from, from + i)
    {
      assert joined[i] == if i < n then es[i] else incoming[i - n];
    }
    RelinkedIsWindow(joined, log, from);
  }

  lemma {:induction false} MergedIsWindow(es: seq<Entry>, log: seq<Entry>, from: nat, to: nat, incoming: seq<Entry>, f: nat, g: nat)
    requires Log(log) && Window(es, log, from, to) && Raw(incoming, log, f, g) && f < g
    requires f <= to && (from < g || es == []) && (es == [] ==> f == from)
    ensures Window(Merged(es, incoming), log, Min(from, f), g)
  {
    var n := PrefixFrom(es, incoming, 0);
    PrefixOfWindow(es, log, from, to, incoming, f, g, 0);
    if from <= f {
      JoinedIsWindow(es, log, from, to, n, incoming, g);
    } else {
      assert es[..n] + incoming == incoming;
      HydratedIsWindow(incoming, log, f, g);
    }
  }

  /** The three outcomes of a merge; the no-op guard only looks at length and newest id. */
  lemma ReconciledCases(es: seq<Entry>, incoming: seq<Entry>)
    ensures incoming == [] || OutOfDate(es, incoming) ==> Reconciled(es, incoming) == es
    ensures incoming != [] && !OutOfDate(es, incoming) ==>
              Reconciled(es, incoming) == Merged(es, incoming) ||
              (Reconciled(es, incoming) == es && |Merged(es, incoming)| == |es|)
  {
  }

  lemma NoOpHidesNothing(es: seq<Entry>, merged: seq<Entry>, result: seq<Entry>, log: seq<Entry>,
                         from: nat, to: nat, from': nat, to': nat)
    requires Window(es, log, from, to) && Window(merged, log, from', to')
    requires from' <= from && to <= to' && from' < to'
    requires result == merged || (result == es && |merged| == |es|)
    ensures Window(result, log, from', to')
  {
  }

  /** A response is out of date exactly when it overlaps the model without its newest entry. */
  lemma {:induction false} OutOfDateIff(es: seq<Entry>, log: seq<Entry>, from: nat, to: nat, incoming: seq<Entry>, f: nat, g: nat)
    requires Log(log) && Window(es, log, from, to) && Raw(incoming, log, f, g) && f < g
    requires f <= to && (from < g || es == [])
    ensures OutOfDate(es, incoming) <==> from < to && g < to
  {
    if es != [] {
      PrefixOfWindow(es, log, from, to, incoming, f, g, 0);
      assert es[|es| - 1].id == log[to - 1].id;
      InWindow(incoming, log, f, g, to - 1);
    }
  }

  /**
   One response. If it neither starts past the model's end nor ends before its start, the model
   stays one contiguous window: unchanged if the response lacks the newest entry, otherwise
   reaching as far back and as far on as the two together.
   */
  lemma {:induction false} ReconciledIsWindow(es: seq<Entry>, log: seq<Entry>, from: nat, to: nat, incoming: seq<Entry>, f: nat, g: nat)
    requires Log(log) && Window(es, log, from, to) && Raw(incoming, log, f, g)
    requires f <= to && (from < g || es == []) && (es == [] ==> f == from)
    ensures if f == g || g < to then Reconciled(es, incoming) == es
            else Window(Reconciled(es, incoming), log, Min(from, f), g)
  {
    ReconciledCases(es, incoming);
    if f < g {
      OutOfDateIff(es, log, from, to, incoming, f, g);
      if g >= to {
        MergedIsWindow(es, log, from, to, incoming, f, g);
        NoOpHidesNothing(es, Merged(es, incoming), Reconciled(es, incoming), log, from, to, Min(from, f), g);
      }
    }
  }

  // --- Any order of arrival --------------------------------------------------------

  /** A response: the entries and, for the claim only, the stretch of the log they are. */
  datatype Response = Response(entries: seq<Entry>, from: nat, to: nat)

  /** The model after the first `n` responses. */
  function Arrived(es: seq<Entry>, rs: seq<Response>, n: nat): seq<Entry>
    requires n <= |rs|
  {
    if n == 0 then es else Reconciled(Arrived(es, rs, n - 1), rs[n - 1].entries)
  }

  /** The furthest end among the first load and the first `n` responses. */
  function Furthest(to: nat, rs: seq<Response>, n: nat): nat
    requires n <= |rs|
  {
    if n == 0 then to else
      var e := Furthest(to, rs, n - 1);
      if rs[n - 1].from < rs[n - 1].to && rs[n - 1].to > e then rs[n - 1].to else e
  }

  /** The earliest start among the first load and the responses that were not out of date. */
  function Earliest(from: nat, to: nat, rs: seq<Response>, n: nat): nat
    requires n <= |rs|
  {
    if n == 0 then from else
      var s := Earliest(from, to, rs, n - 1);
      var r := rs[n - 1];
      if r.from < r.to && r.to >= Furthest(to, rs, n - 1) then Min(s, r.from) else s
  }

  /** Real windows of the log, none older than the first load, none starting past what the model
      has reached when it arrives. */
  ghost predicate Timely(log: seq<Entry>, to: nat, rs: seq<Response>, n: nat)
    requires n <= |rs|
  {
    n == 0 ||
    (var r := rs[n - 1];
     Timely(log, to, rs, n - 1) && Raw(r.entries, log, r.from, r.to) && to <= r.to && r.from <= Furthest(to, rs, n - 1))
  }

  /** The end never moves back, the start never moves forward. */
  lemma {:induction false} WindowOnlyGrows(from: nat, to: nat, rs: seq<Response>, m: nat, n: nat)
    requires m <= n <= |rs|
    ensures Furthest(to, rs, m) <= Furthest(to, rs, n) && Earliest(from, to, rs, n) <= Earliest(from, to, rs, m)
  {
    if m < n {
      WindowOnlyGrows(from, to, rs, m, n - 1);
    }
  }

  /** One more response, seen from outside. */
  lemma NextIsWindow(cur: seq<Entry>, next: seq<Entry>, log: seq<Entry>, start: nat, end: nat, r: Response)
    requires Log(log) && Window(cur, log, start, end) && start < end && next == Reconciled(cur, r.entries)
    requires Raw(r.entries, log, r.from, r.to) && r.from <= end && start < r.to
    ensures Window(next, log, if r.from < r.to && r.to >= end then Min(start, r.from) else start,
                   if r.from < r.to && r.to > end then r.to else end)
  {
    ReconciledIsWindow(cur, log, start, end, r.entries, r.from, r.to);
    if r.from < r.to && r.to >= end {
      assert Window(next, log, Min(start, r.from), r.to);
    } else {
      assert next == cur;
    }
  }

  /** However responses race, the model stays one contiguous window of the log, from the earliest
      start accepted to the furthest end seen. */
  lemma {:induction false} AnyOrderStaysAWindow(es: seq<Entry>, log: seq<Entry>, from: nat, to: nat, rs: seq<Response>, n: nat)
    requires Log(log) && Window(es, log, from, to) && from < to && n <= |rs| && Timely(log, to, rs, n)
    ensures Window(Arrived(es, rs, n), log, Earliest(from, to, rs, n), Furthest(to, rs, n))
  {
    if n > 0 {
      AnyOrderStaysAWindow(es, log, from, to, rs, n - 1);
      WindowOnlyGrows(from, to, rs, 0, n - 1);
      var cur := Arrived(es, rs, n - 1);
      NextIsWindow(cur, Arrived(es, rs, n), log, Earliest(from, to, rs, n - 1), Furthest(to, rs, n - 1), rs[n - 1]);
    }
  }

  // --- Exactly when merging is safe --------------------------------------------------

  /** Some stretch of the log. */
  ghost predicate Contiguous(es: seq<Entry>, log: seq<Entry>)
  {
    exists from: nat, to: nat :: Window(es, log, from, to)
  }

  lemma NeighboursAreConsecutive(es: seq<Entry>, log: seq<Entry>, i: nat, a: nat, b: nat)
    requires Log(log) && Contiguous(es, log) && i + 1 < |es| && a < |log| && b < |log|
    requires es[i].id == log[a].id && es[i + 1].id == log[b].id
    ensures b == a + 1
  {
    var from: nat, to: nat :| Window(es, log, from, to);
    assert es[i].id == log[from + i].id && es[i + 1].id == log[from + i + 1].id;
  }

  lemma GapIsNotContiguous(es: seq<Entry>, log: seq<Entry>, i: nat, a: nat, b: nat)
    requires Log(log) && i + 1 < |es| && a < |log| && b < |log| && b != a + 1
    requires es[i].id == log[a].id && es[i + 1].id == log[b].id
    ensures !Contiguous(es, log)
  {
    if Contiguous(es, log) {
      NeighboursAreConsecutive(es, log, i, a, b);
    }
  }

  /** A merge of two non-empty windows is contiguous exactly when the response starts no later
      than the model's end and ends after the model's start. */
  lemma {:induction false} MergeIsContiguousIff(es: seq<Entry>, log: seq<Entry>, from: nat, to: nat, incoming: seq<Entry>, f: nat, g: nat)
    requires Log(log) && Window(es, log, from, to) && Raw(incoming, log, f, g) && from < to && f < g
    ensures Contiguous(Merged(es, incoming), log) <==> f <= to && from < g
  {
    if f <= to && from < g {
      MergedIsWindow(es, log, from, to, incoming, f, g);
    } else {
      if g <= from {
        PrefixOfLaterWindow(es, log, from, to, incoming, f, g, 0);
      } else {
        PrefixOfWindow(es, log, from, to, incoming, f, g, 0);
      }
      var n := |es|;
      var joined := es[..n] + incoming;
      assert joined[n - 1] == es[n - 1] && joined[n] == incoming[0];
      assert es[n - 1].id == log[to - 1].id && incoming[0].id == log[f].id;
      GapIsNotContiguous(Relinked(joined), log, n - 1, to - 1, f);
    }
  }

  // --- Loading earlier history -----------------------------------------------------

  /** A response that starts with what the model starts with or before, and has its newest entry,
      replaces everything. */
  lemma {:induction false} WholeReplacement(es: seq<Entry>, incoming: seq<Entry>)
    requires es != [] && |incoming| > |es| && es[0].id != ""
    requires HasId(incoming, es[0].id) && HasId(incoming, NewestId(es))
    ensures Reconciled(es, incoming) == Relinked(incoming)
  {
    assert PrefixFrom(es, incoming, 0) == 0;
    assert es[..0] + incoming == incoming;
  }

  lemma EarlierReplacesAll(es: seq<Entry>, earlier: seq<Entry>)
    requires es != [] && earlier != [] && es[0].id != ""
    ensures Reconciled(es, earlier + es) == Relinked(earlier + es)
  {
    var incoming := earlier + es;
    assert incoming[|earlier|] == es[0] && incoming[|incoming| - 1] == es[|es| - 1];
    HasIdAt(incoming, |incoming|, |earlier|);
    HasIdAt(incoming, |incoming|, |incoming| - 1);
    WholeReplacement(es, incoming);
  }

  lemma PrependedIsWindow(es: seq<Entry>, log: seq<Entry>, from: nat, to: nat, earlier: seq<Entry>, f: nat)
    requires Log(log) && Window(es, log, from, to) && Raw(earlier, log, f, from)
    ensures Window(Relinked(earlier + es), log, f, to)
  {
    var joined, n := earlier + es, |earlier|;
    forall i | 0 <= i < |joined|
      ensures Either(joined[i], log, f, f + i)
    {
      assert joined[i] == if i < n then earlier[i] else es[i - n];
    }
    RelinkedIsWindow(joined, log, f);
  }

  /** "Load earlier" merges the older entries followed by everything the model holds. It extends
      the window when the older entries end where the model starts. */
  lemma {:induction false} LoadEarlierExtends(es: seq<Entry>, log: seq<Entry>, from: nat, to: nat, earlier: seq<Entry>, f: nat)
    requires Log(log) && Window(es, log, from, to) && from < to && Raw(earlier, log, f, from) && f < from
    ensures Window(Reconciled(es, earlier + es), log, f, to)
  {
    EarlierReplacesAll(es, earlier);
    PrependedIsWindow(es, log, from, to, earlier, f);
  }

  lemma RepeatIsNotContiguous(es: seq<Entry>, log: seq<Entry>, from: nat, to: nat, earlier: seq<Entry>, f: nat, recorded: nat)
    requires Log(log) && Window(es, log, from, to) && Raw(earlier, log, f, recorded)
    requires f < recorded && from < recorded && from < to
    ensures !Contiguous(Relinked(earlier + es), log)
  {
    var joined, k := earlier + es, |earlier|;
    assert joined[k - 1] == earlier[k - 1] && joined[k] == es[0];
    GapIsNotContiguous(Relinked(joined), log, k - 1, recorded - 1, from);
  }

  /** The model's recorded start is not updated by reconcile: once a reload has reached further
      back than `recorded`, loading earlier history repeats entries. */
  lemma {:induction false} StaleStartRepeats(es: seq<Entry>, log: seq<Entry>, from: nat, to: nat, earlier: seq<Entry>, f: nat, recorded: nat)
    requires Log(log) && Window(es, log, from, to) && Raw(earlier, log, f, recorded)
    requires f < recorded && from < recorded && from < to
    ensures !Contiguous(Reconciled(es, earlier + es), log)
  {
    EarlierReplacesAll(es, earlier);
    RepeatIsNotContiguous(es, log, from, to, earlier, f, recorded);
  }

  /** "Load earlier" asks for what ends at the recorded start. The result is contiguous exactly when
      that is still where the model starts. */
  lemma {:induction false} LoadEarlierIsContiguousIff(es: seq<Entry>, log: seq<Entry>, from: nat, to: nat, earlier: seq<Entry>,
                                                      f: nat, recorded: nat)
    requires Log(log) && Window(es, log, from, to) && Raw(earlier, log, f, recorded)
    requires f < recorded && from <= recorded && from < to
    ensures Contiguous(Reconciled(es, earlier + es), log) <==> recorded == from
  {
    if recorded == from {
      LoadEarlierExtends(es, log, from, to, earlier, f);
    } else {
      StaleStartRepeats(es, log, from, to, earlier, f, recorded);
    }
  }

  /** How that comes about: the page starts with the tail from `recorded`, a live reload fetches the
      whole log without touching the recorded start, and "load earlier" then repeats entries. */
  lemma {:induction false} ReloadThenLoadEarlierRepeats(log: seq<Entry>, recorded: nat, n: nat, g: nat, earlier: seq<Entry>, f: nat)
    requires Log(log) && 0 < recorded < n <= g <= |log| && f < recorded && Raw(earlier, log, f, recorded)
    ensures var reloaded := Reconciled(Relinked(log[recorded..n]), log[..g]);
            Window(reloaded, log, 0, g) && !Contiguous(Reconciled(reloaded, earlier + reloaded), log)
  {
    var tail := Relinked(log[recorded..n]);
    HydratedIsWindow(log[recorded..n], log, recorded, n);
    ReconciledIsWindow(tail, log, recorded, n, log[..g], 0, g);
    LoadEarlierIsContiguousIff(Reconciled(tail, log[..g]), log, 0, g, earlier, f, recorded);
  }

  // --- Lookups -------------------------------------------------------------------

  datatype Lookups = Lookups(
    byId: map<string, Entry>,
    toolCalls: map<string, string>,
    toolResults: map<string, Entry>,
    labels: map<string, string>)

  function WithCalls(m: map<string, string>, calls: seq<ToolCall>, n: nat): map<string, string>
    requires n <= |calls|
  {
    if n == 0 then m else WithCalls(m, calls, n - 1)[calls[n - 1].id := calls[n - 1].name]
  }

  function WithEntry(lk: Lookups, e: Entry): Lookups
  {
    var byId := if e.id != "" then lk.byId[e.id := e] else lk.byId;
    match e.body
    case Assistant(calls) => lk.(byId := byId, toolCalls := WithCalls(lk.toolCalls, calls, |calls|))
    case ToolResult(callId) =>
      lk.(byId := byId, toolResults := if callId != "" then lk.toolResults[callId := e] else lk.toolResults)
    case Label(target, text) =>
      lk.(byId := byId,
          labels := if target == "" then lk.labels else if text != "" then lk.labels[target := text] else lk.labels - {target})
    case SettingChange => lk.(byId := byId)
    case Other => lk.(byId := byId)
  }

  /** The maps rebuilt from the first `n` entries. */
  function Built(es: seq<Entry>, n: nat): Lookups
    requires n <= |es|
  {
    if n == 0 then Lookups(map[], map[], map[], map[]) else WithEntry(Built(es, n - 1), es[n - 1])
  }

  /** A label is the text of the last label entry about its target, gone if that text is empty. */
  predicate LabelledBy(es: seq<Entry>, n: nat, target: string, i: nat)
    requires n <= |es|
  {
    && i < n && target != "" && es[i].body.Label? && es[i].body.targetId == target
    && forall j :: i < j < n ==> !(es[j].body.Label? && es[j].body.targetId == target)
  }

  lemma {:induction false} LabelIsTheLastWord(es: seq<Entry>, n: nat, target: string, i: nat)
    requires n <= |es| && LabelledBy(es, n, target, i)
    ensures target in Built(es, n).labels <==> es[i].body.text != ""
    ensures target in Built(es, n).labels ==> Built(es, n).labels[target] == es[i].body.text
    decreases n
  {
    if i < n - 1 {
      LabelIsTheLastWord(es, n - 1, target, i);
    }
  }

  lemma ByIdStep(lk: Lookups, e: Entry)
    ensures WithEntry(lk, e).byId == if e.id != "" then lk.byId[e.id := e] else lk.byId
  {
  }

  lemma {:induction false} ByIdIsTheLastEntry(es: seq<Entry>, n: nat, i: nat)
    requires i < n <= |es| && es[i].id != "" && forall j :: i < j < n ==> es[j].id != es[i].id
    ensures es[i].id in Built(es, n).byId && Built(es, n).byId[es[i].id] == es[i]
    decreases n
  {
    ByIdStep(Built(es, n - 1), es[n - 1]);
    if i < n - 1 {
      ByIdIsTheLastEntry(es, n - 1, i);
      assert es[n - 1].id != es[i].id;
    }
  }

  /** Call `c` of entry `i` is the last one with its id. */
  predicate LastCall(es: seq<Entry>, n: nat, i: nat, c: nat)
    requires n <= |es|
  {
    && i < n && es[i].body.Assistant? && c < |es[i].body.calls|
    && var id := es[i].body.calls[c].id;
       && (forall d :: c < d < |es[i].body.calls| ==> es[i].body.calls[d].id != id)
       && forall j, d :: i < j < n && es[j].body.Assistant? && 0 <= d < |es[j].body.calls| ==> es[j].body.calls[d].id != id
  }

  lemma {:induction false} CallsKeep(m: map<string, string>, calls: seq<ToolCall>, n: nat, id: string)
    requires n <= |calls| && forall d :: 0 <= d < n ==> calls[d].id != id
    ensures (id in WithCalls(m, calls, n) <==> id in m) && (id in m ==> WithCalls(m, calls, n)[id] == m[id])
  {
    if n > 0 {
      CallsKeep(m, calls, n - 1, id);
    }
  }

  lemma {:induction false} CallsName(m: map<string, string>, calls: seq<ToolCall>, n: nat, c: nat)
    requires c < n <= |calls| && forall d :: c < d < n ==> calls[d].id != calls[c].id
    ensures calls[c].id in WithCalls(m, calls, n) && WithCalls(m, calls, n)[calls[c].id] == calls[c].name
    decreases n
  {
    if c < n - 1 {
      CallsName(m, calls, n - 1, c);
    }
  }

  lemma {:induction false} ToolCallIsTheLastWord(es: seq<Entry>, n: nat, i: nat, c: nat)
    requires n <= |es| && LastCall(es, n, i, c)
    ensures var call := es[i].body.calls[c];
            call.id in Built(es, n).toolCalls && Built(es, n).toolCalls[call.id] == call.name
    decreases n
  {
    var call, e := es[i].body.calls[c], es[n - 1];
    if i < n - 1 {
      ToolCallIsTheLastWord(es, n - 1, i, c);
      if e.body.Assistant? {
        CallsKeep(Built(es, n - 1).toolCalls, e.body.calls, |e.body.calls|, call.id);
      }
    } else {
      CallsName(Built(es, n - 1).toolCalls, e.body.calls, |e.body.calls|, c);
    }
  }

  predicate Results(e: Entry, callId: string) { e.body.ToolResult? && e.body.callId == callId }

  /** A tool call leads to the last entry that holds its result. */
  lemma {:induction false} ToolResultIsTheLastWord(es: seq<Entry>, n: nat, i: nat, callId: string)
    requires i < n <= |es| && callId != "" && Results(es[i], callId)
    requires forall j :: i < j < n ==> !Results(es[j], callId)
    ensures callId in Built(es, n).toolResults && Built(es, n).toolResults[callId] == es[i]
    decreases n
  {
    if i < n - 1 {
      ToolResultIsTheLastWord(es, n - 1, i, callId);
    }
  }

  lemma {:induction false} CallsAddNothingElse(m: map<string, string>, calls: seq<ToolCall>, n: nat, id: string)
    requires n <= |calls| && id in WithCalls(m, calls, n) && id !in m
    ensures exists c :: 0 <= c < n && calls[c].id == id
  {
    if calls[n - 1].id != id {
      CallsAddNothingElse(m, calls, n - 1, id);
    }
  }

  predicate Calls(e: Entry, id: string) { e.body.Assistant? && exists c :: 0 <= c < |e.body.calls| && e.body.calls[c].id == id }

  predicate Labels(e: Entry, target: string) { e.body.Label? && e.body.targetId == target }

  /** The maps hold nothing no entry speaks of. */
  lemma {:induction false} LookupsHoldNothingElse(es: seq<Entry>, n: nat, id: string)
    requires n <= |es|
    ensures id in Built(es, n).byId ==> id != "" && exists i :: 0 <= i < n && es[i].id == id
    ensures id in Built(es, n).toolCalls ==> exists i :: 0 <= i < n && Calls(es[i], id)
    ensures id in Built(es, n).toolResults ==> id != "" && exists i :: 0 <= i < n && Results(es[i], id)
    ensures id in Built(es, n).labels ==> id != "" && exists i :: 0 <= i < n && Labels(es[i], id)
  {
    if n > 0 {
      LookupsHoldNothingElse(es, n - 1, id);
      var lk, e := Built(es, n - 1), es[n - 1];
      if e.body.Assistant? && id in Built(es, n).toolCalls && id !in lk.toolCalls {
        CallsAddNothingElse(lk.toolCalls, e.body.calls, |e.body.calls|, id);
        assert Calls(e, id);
      }
    }
  }

  // --- The model -----------------------------------------------------------------

  class SessionDataModel {
    var entries: seq<Entry>
    var byId: map<string, Entry>
    var toolCallMap: map<string, string>
    var toolResultMap: map<string, Entry>
    var labelMap: map<string, string>

    ghost predicate Valid()
      reads this
    {
      Lookups(byId, toolCallMap, toolResultMap, labelMap) == Built(entries, |entries|)
    }

    constructor Hydrate(data: seq<Entry>)
      ensures Valid() && entries == Relinked(data)
    {
      entries, byId, toolCallMap, toolResultMap, labelMap := [], map[], map[], map[], map[];
      new;
      entries := RelinkOrphanMetadata(data);
      Refill();
    }

    static method RelinkOrphanMetadata(es: seq<Entry>) returns (r: seq<Entry>)
      ensures r == Relinked(es)
    {
      r := [];
      var lastId := "";
      for n := 0 to |es|
        invariant r == RelinkedTo(es, n) && lastId == LastId(es, n)
      {
        r := r + [Relink(es[n], lastId)];
        if es[n].id != "" {
          lastId := es[n].id;
        }
      }
    }

    /** Clears and refills the lookup maps from the entries. */
    method Refill()
      modifies this`byId, this`toolCallMap, this`toolResultMap, this`labelMap
      ensures Valid()
    {
      byId, toolCallMap, toolResultMap, labelMap := map[], map[], map[], map[];
      for n := 0 to |entries|
        invariant Lookups(byId, toolCallMap, toolResultMap, labelMap) == Built(entries, n)
      {
        var e := entries[n];
        if e.id != "" {
          byId := byId[e.id := e];
        }
        match e.body
        case Assistant(calls) =>
          ghost var before := toolCallMap;
          for c := 0 to |calls|
            invariant toolCallMap == WithCalls(before, calls, c)
            invariant Lookups(byId, before, toolResultMap, labelMap) == Built(entries, n).(byId := byId)
            invariant byId == if e.id != "" then Built(entries, n).byId[e.id := e] else Built(entries, n).byId
          {
            toolCallMap := toolCallMap[calls[c].id := calls[c].name];
          }
          assert toolCallMap == WithCalls(before, calls, |calls|);
        case ToolResult(callId) =>
          if callId != "" {
            toolResultMap := toolResultMap[callId := e];
          }
        case Label(target, text) =>
          if target != "" {
            labelMap := if text != "" then labelMap[target := text] else labelMap - {target};
          }
        case SettingChange =>
        case Other =>
      }
    }

    static method IdsOf(es: seq<Entry>) returns (ids: set<string>)
      ensures forall id :: id in ids <==> id != "" && HasId(es, id)
    {
      ids := {};
      for n := 0 to |es|
        invariant forall id :: id in ids <==> id != "" && HasIdTo(es, n, id)
      {
        if es[n].id != "" {
          ids := ids + {es[n].id};
        }
      }
    }

    method KeptPrefix(ids: set<string>, ghost incoming: seq<Entry>) returns (prefix: seq<Entry>)
      requires forall id :: id in ids <==> id != "" && HasId(incoming, id)
      ensures prefix == entries[..PrefixFrom(entries, incoming, 0)]
    {
      prefix := [];
      while |prefix| < |entries| && !(entries[|prefix|].id != "" && entries[|prefix|].id in ids)
        invariant |prefix| <= |entries| && prefix == entries[..|prefix|]
        invariant PrefixFrom(entries, incoming, 0) == PrefixFrom(entries, incoming, |prefix|)
      {
        prefix := prefix + [entries[|prefix|]];
      }
    }

    /** Merges a response; the maps are those of the resulting entries. */
    method Reconcile(incoming: seq<Entry>)
      requires Valid()
      modifies this
      ensures Valid() && entries == Reconciled(old(entries), incoming)
    {
      if incoming == [] {
        return;
      }
      var ids := IdsOf(incoming);
      var prefix := KeptPrefix(ids, incoming);
      var lastId := if entries == [] then "" else entries[|entries| - 1].id;
      if lastId != "" && |prefix| < |entries| && lastId !in ids {
        return;
      }
      var merged := RelinkOrphanMetadata(prefix + incoming);
      if |merged| == |entries| && merged[|merged| - 1].id == lastId {
        return;
      }
      entries := merged;
      Refill();
    }
  }
}
