/**
 Ordering session summaries (internal/sessions/session.go): by activity, and by project.
 */
module Summaries {
  import opened Prelude

  /** A summary as far as listing goes; the activity is absent when its timestamp does not parse. */
  datatype Summary = Summary(id: string, project: string, activity: Option<int>, details: string)

  /** A summary and where it stood before sorting. */
  datatype Ranked = Ranked(summary: Summary, index: nat)

  /** Dated before undated, newer before older, else by position. */
  predicate Precedes(a: Ranked, b: Ranked)
  {
    var x, y := a.summary.activity, b.summary.activity;
    if x.Some? != y.Some? then x.Some?
    else if x.Some? && x.value != y.value then x.value > y.value
    else a.index < b.index
  }

  predicate Sorted(s: seq<Ranked>) { forall i, j :: 0 <= i < j < |s| ==> Precedes(s[i], s[j]) }

  lemma PrecedesIsAStrictOrder(a: Ranked, b: Ranked, c: Ranked)
    ensures !Precedes(a, a)
    ensures Precedes(a, b) && Precedes(b, c) ==> Precedes(a, c)
    ensures a.index != b.index ==> Precedes(a, b) || Precedes(b, a)
  {
  }

  /** Where among the first `n` of a sorted list the item belongs. */
  function Slot(s: seq<Ranked>, n: nat, x: Ranked): (r: nat)
    requires n <= |s|
    ensures r <= n
    ensures forall i :: r <= i < n ==> Precedes(x, s[i])
    ensures r > 0 ==> !Precedes(x, s[r - 1])
  {
    if n > 0 && Precedes(x, s[n - 1]) then Slot(s, n - 1, x) else n
  }

  function Insert(s: seq<Ranked>, x: Ranked): seq<Ranked>
  {
    var at := Slot(s, |s|, x);
    s[..at] + [x] + s[at..]
  }

  /** The first `n` items in order; sort.Slice leaves no other result. */
  function SortItems(items: seq<Ranked>, n: nat): seq<Ranked>
    requires n <= |items|
  {
    if n == 0 then [] else Insert(SortItems(items, n - 1), items[n - 1])
  }

  function RankAll(s: seq<Summary>): (r: seq<Ranked>)
    ensures |r| == |s|
  {
    seq(|s|, i requires 0 <= i < |s| => Ranked(s[i], i))
  }

  function Unrank(items: seq<Ranked>): (r: seq<Summary>)
    ensures |r| == |items|
  {
    seq(|items|, i requires 0 <= i < |items| => items[i].summary)
  }

  function ByActivity(s: seq<Summary>): seq<Summary> { Unrank(SortItems(RankAll(s), |s|)) }

  lemma InsertKeepsBag(s: seq<Ranked>, x: Ranked)
    ensures multiset(Insert(s, x)) == multiset(s) + multiset{x}
  {
    var at := Slot(s, |s|, x);
    assert s == s[..at] + s[at..];
  }

  lemma InsertSorts(s: seq<Ranked>, x: Ranked)
    requires Sorted(s) && forall i :: 0 <= i < |s| ==> s[i].index != x.index
    ensures Sorted(Insert(s, x))
  {
    var at := Slot(s, |s|, x);
    forall i | 0 <= i < at
      ensures Precedes(s[i], x)
    {
      PrecedesIsAStrictOrder(s[at - 1], x, x);
      PrecedesIsAStrictOrder(s[i], s[at - 1], x);
    }
  }

  /** Distinct positions among the first `n`. */
  predicate Distinct(items: seq<Ranked>, n: nat)
    requires n <= |items|
  {
    forall i, j :: 0 <= i < j < n ==> items[i].index != items[j].index
  }

  lemma NewIndexIsOther(items: seq<Ranked>, n: nat, before: seq<Ranked>)
    requires n < |items| && Distinct(items, n + 1) && multiset(before) == multiset(items[..n])
    ensures forall i :: 0 <= i < |before| ==> before[i].index != items[n].index
  {
    forall i | 0 <= i < |before|
      ensures before[i].index != items[n].index
    {
      assert before[i] in multiset(before);
      assert before[i] in items[..n];
    }
  }

  lemma {:induction false} SortItemsSorts(items: seq<Ranked>, n: nat)
    requires n <= |items| && Distinct(items, n)
    ensures multiset(SortItems(items, n)) == multiset(items[..n])
    ensures Sorted(SortItems(items, n))
  {
    if n > 0 {
      var before, x := SortItems(items, n - 1), items[n - 1];
      SortItemsSorts(items, n - 1);
      assert items[..n] == items[..n - 1] + [x];
      InsertKeepsBag(before, x);
      NewIndexIsOther(items, n - 1, before);
      InsertSorts(before, x);
    }
  }

  /** A bag of items has only one sorted arrangement, whatever algorithm finds it. */
  lemma {:induction false} SortedIsUnique(a: seq<Ranked>, b: seq<Ranked>)
    requires Sorted(a) && Sorted(b) && multiset(a) == multiset(b)
    ensures a == b
  {
    assert |a| == |multiset(a)| == |multiset(b)| == |b|;
    if a != [] {
      SameFirst(a, b);
      assert a == [a[0]] + a[1..] && b == [b[0]] + b[1..];
      assert multiset(a[1..]) == multiset(a) - multiset{a[0]} == multiset(b[1..]);
      SortedIsUnique(a[1..], b[1..]);
    }
  }

  lemma SameFirst(a: seq<Ranked>, b: seq<Ranked>)
    requires Sorted(a) && Sorted(b) && multiset(a) == multiset(b) && a != [] && b != []
    ensures a[0] == b[0]
  {
    assert a[0] in multiset(b) && b[0] in multiset(a);
    var i :| 0 <= i < |b| && b[i] == a[0];
    var j :| 0 <= j < |a| && a[j] == b[0];
    PrecedesIsAStrictOrder(a[0], b[0], a[0]);
  }

  /** Dated first, newest first. */
  predicate InActivityOrder(s: seq<Summary>)
  {
    forall i, j :: 0 <= i < j < |s| ==>
      (s[j].activity.Some? ==> s[i].activity.Some? && s[i].activity.value >= s[j].activity.value)
  }

  lemma UnrankAppend(a: seq<Ranked>, b: seq<Ranked>)
    ensures Unrank(a + b) == Unrank(a) + Unrank(b)
  {
  }

  /** Dropping the same element from equal bags. */
  lemma {:induction false} DropOne(init: seq<Ranked>, x: Ranked, b: seq<Ranked>, j: nat, rest: seq<Ranked>)
    requires multiset(init + [x]) == multiset(b) && j < |b| && b[j] == x && rest == b[..j] + b[j + 1..]
    ensures multiset(init) == multiset(rest)
  {
    assert b == b[..j] + [x] + b[j + 1..];
    assert multiset(b) == multiset(b[..j]) + multiset{x} + multiset(b[j + 1..]);
    assert multiset(init) == multiset(init + [x]) - multiset{x};
    assert multiset(rest) == multiset(b) - multiset{x};
  }

  lemma {:induction false} UnrankWithout(b: seq<Ranked>, j: nat, rest: seq<Ranked>)
    requires j < |b| && rest == b[..j] + b[j + 1..]
    ensures multiset(Unrank(b)) == multiset(Unrank(rest)) + multiset{b[j].summary}
  {
    UnrankAppend(b[..j], b[j + 1..]);
    assert Unrank(b) == Unrank(b[..j]) + [b[j].summary] + Unrank(b[j + 1..]);
  }

  lemma {:induction false} UnrankBag(a: seq<Ranked>, b: seq<Ranked>)
    requires multiset(a) == multiset(b)
    ensures multiset(Unrank(a)) == multiset(Unrank(b))
    decreases |a|
  {
    assert |a| == |multiset(a)| == |multiset(b)| == |b|;
    if a != [] {
      var x, init := a[|a| - 1], a[..|a| - 1];
      assert a == init + [x];
      assert x in multiset(b);
      var j: nat :| j < |b| && b[j] == x;
      var rest := b[..j] + b[j + 1..];
      DropOne(init, x, b, j, rest);
      UnrankBag(init, rest);
      UnrankWithout(b, j, rest);
      UnrankAppend(init, [x]);
    }
  }

  /** Sorting keeps every summary, puts them in activity order, and keeps ties in their old order. */
  lemma {:induction false} ByActivitySorts(s: seq<Summary>)
    ensures multiset(ByActivity(s)) == multiset(s)
    ensures InActivityOrder(ByActivity(s))
    ensures var order := SortItems(RankAll(s), |s|);
            forall i, j :: 0 <= i < j < |order| && order[i].summary.activity == order[j].summary.activity ==>
              order[i].index < order[j].index
  {
    var items := RankAll(s);
    SortItemsSorts(items, |items|);
    assert items[..|items|] == items;
    UnrankBag(SortItems(items, |items|), items);
    assert Unrank(items) == s;
  }

  /** SortSummariesByActivity, in place. */
  method SortSummariesByActivity(s: array<Summary>)
    modifies s
    ensures s[..] == ByActivity(old(s[..]))
  {
    var items: seq<Ranked> := [];
    for i := 0 to s.Length
      invariant items == RankAll(s[..i])
    {
      items := items + [Ranked(s[i], i)];
    }
    assert s[..s.Length] == s[..];
    items := SortItems(items, |items|);
    SortItemsLength(RankAll(s[..]), s.Length);
    for i := 0 to s.Length
      invariant forall k :: 0 <= k < i ==> s[k] == items[k].summary
    {
      s[i] := items[i].summary;
    }
    assert s[..] == Unrank(items);
  }

  /** Sorts a list of its own. */
  method SortedCopy(items: seq<Summary>) returns (sorted: seq<Summary>)
    ensures sorted == ByActivity(items)
  {
    var a := new Summary[|items|](i requires 0 <= i < |items| => items[i]);
    assert a[..] == items;
    SortSummariesByActivity(a);
    sorted := a[..];
  }

  lemma {:induction false} SortItemsLength(items: seq<Ranked>, n: nat)
    requires n <= |items|
    ensures |SortItems(items, n)| == n
  {
    if n > 0 {
      SortItemsLength(items, n - 1);
    }
  }

  // --- By project ------------------------------------------------------------------

  /** The sessions of one project and its latest dated activity. */
  datatype Group = Group(project: string, items: seq<Summary>, latest: Option<int>)

  function Later(latest: Option<int>, a: Option<int>): Option<int>
  {
    if a.Some? && (latest.None? || a.value > latest.value) then a else latest
  }

  function GroupOf(gs: seq<Group>, n: nat, project: string): (r: Option<nat>)
    requires n <= |gs|
    ensures r.Some? ==> r.value < n && gs[r.value].project == project
    ensures r.None? ==> forall i :: 0 <= i < n ==> gs[i].project != project
  {
    if n == 0 then None
    else if gs[n - 1].project == project then Some(n - 1)
    else GroupOf(gs, n - 1, project)
  }

  function WithSummary(gs: seq<Group>, x: Summary): seq<Group>
  {
    var k := GroupOf(gs, |gs|, x.project);
    if k.None? then gs + [Group(x.project, [x], Later(None, x.activity))]
    else gs[k.value := Group(x.project, gs[k.value].items + [x], Later(gs[k.value].latest, x.activity))]
  }

  function Grouped(s: seq<Summary>, n: nat): seq<Group>
    requires n <= |s|
  {
    if n == 0 then [] else WithSummary(Grouped(s, n - 1), s[n - 1])
  }

  /** A group's place among groups: by its latest activity, then by first appearance. */
  function Keys(gs: seq<Group>): (r: seq<Summary>)
    ensures |r| == |gs|
  {
    seq(|gs|, i requires 0 <= i < |gs| => Summary("", gs[i].project, gs[i].latest, ""))
  }

  function Order(gs: seq<Group>): seq<Ranked> { SortItems(RankAll(Keys(gs)), |gs|) }

  function ItemsAt(gs: seq<Group>, k: nat): seq<Summary> { if k < |gs| then gs[k].items else [] }

  /** The items of the first `n` groups of an order, one group after the other, each sorted. */
  function Listed(order: seq<Ranked>, gs: seq<Group>, n: nat): seq<Summary>
    requires n <= |order|
  {
    if n == 0 then [] else Listed(order, gs, n - 1) + ByActivity(ItemsAt(gs, order[n - 1].index))
  }

  function ByProject(s: seq<Summary>): seq<Summary>
  {
    var gs := Grouped(s, |s|);
    Listed(Order(gs), gs, |Order(gs)|)
  }

  method WriteBack(s: array<Summary>, out: seq<Summary>)
    requires |out| == s.Length
    modifies s
    ensures s[..] == out
  {
    for n := 0 to s.Length
      invariant s[..n] == out[..n]
    {
      s[n] := out[n];
    }
    assert s[..s.Length] == s[..] && out[..s.Length] == out;
  }

  /** SortSummariesByProjectActivity, in place. */
  method SortSummariesByProjectActivity(s: array<Summary>)
    modifies s
    ensures s[..] == ByProject(old(s[..]))
  {
    ByProjectKeepsAll(s[..]);
    assert |ByProject(s[..])| == |multiset(ByProject(s[..]))| == |multiset(s[..])|;
    var out := Regroup(s[..]);
    WriteBack(s, out);
  }

  /** Groups the summaries, sorts each group and lists the groups in order. */
  method Regroup(s: seq<Summary>) returns (out: seq<Summary>)
    ensures out == ByProject(s)
  {
    var groups: seq<Group> := [];
    for n := 0 to |s|
      invariant groups == Grouped(s, n)
    {
      groups := WithSummary(groups, s[n]);
    }
    var order := Order(groups);
    out := [];
    for n := 0 to |order|
      invariant out == Listed(order, groups, n)
    {
      var sorted := SortedCopy(ItemsAt(groups, order[n].index));
      out := out + sorted;
    }
  }

  // --- What grouping achieves --------------------------------------------------------

  /** Of one project, with the newest of its dated activities as the latest. */
  predicate GroupOk(g: Group)
  {
    && (forall i :: 0 <= i < |g.items| ==> g.items[i].project == g.project)
    && (forall i :: 0 <= i < |g.items| && g.items[i].activity.Some? ==>
          g.latest.Some? && g.latest.value >= g.items[i].activity.value)
    && (g.latest.Some? ==> exists i :: 0 <= i < |g.items| && g.items[i].activity == g.latest)
  }

  predicate GroupsOk(gs: seq<Group>)
  {
    && (forall i :: 0 <= i < |gs| ==> GroupOk(gs[i]))
    && (forall i, j :: 0 <= i < j < |gs| ==> gs[i].project != gs[j].project)
  }

  lemma GrownGroupIsOk(g: Group, x: Summary)
    requires GroupOk(g) && x.project == g.project
    ensures GroupOk(Group(g.project, g.items + [x], Later(g.latest, x.activity)))
  {
    var after := Group(g.project, g.items + [x], Later(g.latest, x.activity));
    if after.latest == x.activity {
      assert after.items[|g.items|] == x;
    } else if g.latest.Some? {
      var i :| 0 <= i < |g.items| && g.items[i].activity == g.latest;
      assert after.items[i] == g.items[i];
    }
  }

  lemma {:induction false} GroupedIsOk(s: seq<Summary>, n: nat)
    requires n <= |s|
    ensures GroupsOk(Grouped(s, n))
  {
    if n > 0 {
      GroupedIsOk(s, n - 1);
      var gs, x := Grouped(s, n - 1), s[n - 1];
      var k := GroupOf(gs, |gs|, x.project);
      if k.Some? {
        GrownGroupIsOk(gs[k.value], x);
      } else {
        assert GroupOk(Group(x.project, [], None));
        GrownGroupIsOk(Group(x.project, [], None), x);
        assert [] + [x] == [x];
      }
    }
  }

  /** The summaries of the first `n` groups. */
  function Members(gs: seq<Group>, n: nat): multiset<Summary>
    requires n <= |gs|
  {
    if n == 0 then multiset{} else Members(gs, n - 1) + multiset(gs[n - 1].items)
  }

  lemma {:induction false} MembersChange(a: seq<Group>, b: seq<Group>, n: nat, k: nat, x: Summary)
    requires k < |a| && n <= |a| && n <= |b| && k < |b|
    requires forall i :: 0 <= i < n && i != k ==> a[i] == b[i]
    requires b[k].items == a[k].items + [x]
    ensures Members(b, n) == Members(a, n) + if k < n then multiset{x} else multiset{}
  {
    if n > 0 {
      MembersChange(a, b, n - 1, k, x);
    }
  }

  lemma {:induction false} MembersAgree(a: seq<Group>, b: seq<Group>, n: nat)
    requires n <= |a| && n <= |b| && forall i :: 0 <= i < n ==> a[i] == b[i]
    ensures Members(a, n) == Members(b, n)
  {
    if n > 0 {
      MembersAgree(a, b, n - 1);
    }
  }

  lemma {:induction false} OneMember(gs: seq<Group>, x: Summary, after: seq<Group>)
    requires after == WithSummary(gs, x)
    ensures Members(after, |after|) == Members(gs, |gs|) + multiset{x}
  {
    var k := GroupOf(gs, |gs|, x.project);
    if k.Some? {
      MembersChange(gs, after, |gs|, k.value, x);
    } else {
      MembersAgree(after, gs, |gs|);
    }
  }

  lemma {:induction false} GroupedKeepsAll(s: seq<Summary>, n: nat, gs: seq<Group>)
    requires n <= |s| && gs == Grouped(s, n)
    ensures Members(gs, |gs|) == multiset(s[..n])
  {
    if n > 0 {
      var before, x := Grouped(s, n - 1), s[n - 1];
      GroupedKeepsAll(s, n - 1, before);
      OneMember(before, x, gs);
      PrefixBag(s, n);
    }
  }

  lemma PrefixBag(s: seq<Summary>, n: nat)
    requires 0 < n <= |s|
    ensures multiset(s[..n]) == multiset(s[..n - 1]) + multiset{s[n - 1]}
  {
    assert s[..n] == s[..n - 1] + [s[n - 1]];
  }

  /** The sum of the weights that the first `n` of an order refer to. */
  function Weighed(order: seq<Ranked>, w: seq<nat>, n: nat): nat
    requires n <= |order|
  {
    if n == 0 then 0 else Weighed(order, w, n - 1) + WeightAt(w, order[n - 1].index)
  }

  function WeightAt(w: seq<nat>, k: nat): nat { if k < |w| then w[k] else 0 }

  lemma {:induction false} WeighedAgree(a: seq<Ranked>, b: seq<Ranked>, w: seq<nat>, n: nat)
    requires n <= |a| && n <= |b| && forall i :: 0 <= i < n ==> a[i] == b[i]
    ensures Weighed(a, w, n) == Weighed(b, w, n)
  {
    if n > 0 {
      WeighedAgree(a, b, w, n - 1);
    }
  }

  /** Taking one rank out of the middle. */
  lemma {:induction false} WeighedWithout(order: seq<Ranked>, rest: seq<Ranked>, w: seq<nat>, j: nat, n: nat)
    requires j < n <= |order| && |rest| == |order| - 1
    requires forall k :: 0 <= k < j ==> rest[k] == order[k]
    requires forall k :: j <= k < |rest| ==> rest[k] == order[k + 1]
    ensures Weighed(order, w, n) == Weighed(rest, w, n - 1) + WeightAt(w, order[j].index)
  {
    if n - 1 == j {
      WeighedAgree(order, rest, w, j);
    } else {
      WeighedWithout(order, rest, w, j, n - 1);
      assert rest[n - 2] == order[n - 1];
    }
  }

  /** The last of one order taken out of another with the same bag. */
  lemma LastTakenOut(a: seq<Ranked>, b: seq<Ranked>) returns (j: nat, rest: seq<Ranked>)
    requires a != [] && multiset(a) == multiset(b)
    ensures j < |b| && b[j] == a[|a| - 1] && rest == b[..j] + b[j + 1..]
    ensures multiset(a[..|a| - 1]) == multiset(rest)
  {
    var last, init := a[|a| - 1], a[..|a| - 1];
    assert a == init + [last];
    assert last in multiset(b);
    j :| j < |b| && b[j] == last;
    rest := b[..j] + b[j + 1..];
    DropOne(init, last, b, j, rest);
  }

  lemma {:induction false} WeighedPermute(a: seq<Ranked>, b: seq<Ranked>, w: seq<nat>)
    requires multiset(a) == multiset(b)
    ensures Weighed(a, w, |a|) == Weighed(b, w, |b|)
    decreases |a|
  {
    assert |a| == |multiset(a)| == |multiset(b)| == |b|;
    if a != [] {
      var j, rest := LastTakenOut(a, b);
      WeighedWithout(b, rest, w, j, |b|);
      WeighedPermute(a[..|a| - 1], rest, w);
      WeighedAgree(a, a[..|a| - 1], w, |a| - 1);
    }
  }

  /** How often a summary is a member of each group. */
  function TimesIn(gs: seq<Group>, x: Summary): (w: seq<nat>)
    ensures |w| == |gs|
  {
    seq(|gs|, k requires 0 <= k < |gs| => multiset(gs[k].items)[x])
  }

  lemma {:induction false} WeighedInOrder(gs: seq<Group>, n: nat, x: Summary)
    requires n <= |gs|
    ensures Weighed(RankAll(Keys(gs)), TimesIn(gs, x), n) == Members(gs, n)[x]
  {
    if n > 0 {
      WeighedInOrder(gs, n - 1, x);
    }
  }

  lemma WeightIs(gs: seq<Group>, k: nat, x: Summary)
    ensures WeightAt(TimesIn(gs, x), k) == multiset(ItemsAt(gs, k))[x]
  {
  }

  lemma SortedAdds(before: seq<Summary>, items: seq<Summary>, x: Summary, all: seq<Summary>)
    requires all == before + ByActivity(items)
    ensures multiset(all)[x] == multiset(before)[x] + multiset(items)[x]
  {
    ByActivitySorts(items);
  }

  lemma OneMoreListed(order: seq<Ranked>, gs: seq<Group>, n: nat, x: Summary, w: seq<nat>, before: seq<Summary>, listed: seq<Summary>)
    requires 0 < n <= |order| && before == Listed(order, gs, n - 1) && listed == Listed(order, gs, n) && w == TimesIn(gs, x)
    ensures multiset(listed)[x] == multiset(before)[x] + WeightAt(w, order[n - 1].index)
  {
    SortedAdds(before, ItemsAt(gs, order[n - 1].index), x, listed);
    WeightIs(gs, order[n - 1].index, x);
  }

  lemma {:induction false} ListedWeighs(order: seq<Ranked>, gs: seq<Group>, n: nat, x: Summary, w: seq<nat>, listed: seq<Summary>)
    requires n <= |order| && listed == Listed(order, gs, n) && w == TimesIn(gs, x)
    ensures multiset(listed)[x] == Weighed(order, w, n)
  {
    if n > 0 {
      var before := Listed(order, gs, n - 1);
      ListedWeighs(order, gs, n - 1, x, w, before);
      OneMoreListed(order, gs, n, x, w, before, listed);
    }
  }

  lemma OrderSorts(gs: seq<Group>)
    ensures Sorted(Order(gs)) && multiset(Order(gs)) == multiset(RankAll(Keys(gs)))
  {
    var items := RankAll(Keys(gs));
    SortItemsSorts(items, |gs|);
    assert items[..|gs|] == items;
  }

  /** Sorting by project keeps every summary. */
  lemma {:induction false} ByProjectKeepsAll(s: seq<Summary>)
    ensures multiset(ByProject(s)) == multiset(s)
  {
    var gs := Grouped(s, |s|);
    OrderSorts(gs);
    GroupedKeepsAll(s, |s|, gs);
    assert s[..|s|] == s;
    forall x
      ensures multiset(ByProject(s))[x] == multiset(s)[x]
    {
      WeighedInOrder(gs, |gs|, x);
      WeighedPermute(Order(gs), RankAll(Keys(gs)), TimesIn(gs, x));
      ListedWeighs(Order(gs), gs, |Order(gs)|, x, TimesIn(gs, x), ByProject(s));
    }
  }

  /** The sessions of a project stand together. */
  predicate Contiguous(s: seq<Summary>)
  {
    forall i, j, k :: 0 <= i < j < k < |s| && s[i].project == s[k].project ==> s[j].project == s[i].project
  }

  predicate OrderedWithinProjects(s: seq<Summary>)
  {
    forall i, j :: 0 <= i < j < |s| && s[i].project == s[j].project && s[j].activity.Some? ==>
      s[i].activity.Some? && s[i].activity.value >= s[j].activity.value
  }

  lemma OrderAt(gs: seq<Group>, i: nat)
    requires i < |Order(gs)|
    ensures var r := Order(gs)[i];
            r.index < |gs| && r == RankAll(Keys(gs))[r.index]
  {
    OrderSorts(gs);
    assert Order(gs)[i] in multiset(RankAll(Keys(gs)));
    assert Order(gs)[i] in RankAll(Keys(gs));
  }

  lemma OrderIsDistinct(gs: seq<Group>, i: nat, j: nat)
    requires i < j < |Order(gs)|
    ensures Order(gs)[i].index != Order(gs)[j].index
  {
    OrderSorts(gs);
    OrderAt(gs, i);
    OrderAt(gs, j);
    PrecedesIsAStrictOrder(Order(gs)[i], Order(gs)[j], Order(gs)[i]);
  }

  lemma AppendGroup(s: seq<Summary>, t: seq<Summary>, project: string, all: seq<Summary>)
    requires all == s + t && Contiguous(s) && OrderedWithinProjects(s) && InActivityOrder(t)
    requires forall i :: 0 <= i < |s| ==> s[i].project != project
    requires forall i :: 0 <= i < |t| ==> t[i].project == project
    ensures Contiguous(all) && OrderedWithinProjects(all)
  {
  }

  lemma MembersBelong(g: Group)
    requires GroupOk(g)
    ensures forall i :: 0 <= i < |ByActivity(g.items)| ==> ByActivity(g.items)[i].project == g.project
  {
    ByActivitySorts(g.items);
    var sorted := ByActivity(g.items);
    forall i | 0 <= i < |sorted|
      ensures sorted[i].project == g.project
    {
      assert sorted[i] in multiset(g.items);
      assert sorted[i] in g.items;
    }
  }

  /** Every summary listed so far belongs to one of the groups listed so far. */
  predicate FromListed(s: seq<Summary>, order: seq<Ranked>, gs: seq<Group>, n: nat)
    requires n <= |order|
  {
    forall i :: 0 <= i < |s| ==> ListedBefore(s[i].project, order, gs, n)
  }

  predicate ListedBefore(project: string, order: seq<Ranked>, gs: seq<Group>, n: nat)
    requires n <= |order|
  {
    exists k :: 0 <= k < n && order[k].index < |gs| && gs[order[k].index].project == project
  }

  lemma ListedAreOthers(gs: seq<Group>, n: nat, project: string)
    requires GroupsOk(gs) && 0 < n <= |Order(gs)| && ListedBefore(project, Order(gs), gs, n - 1)
    requires Order(gs)[n - 1].index < |gs|
    ensures project != gs[Order(gs)[n - 1].index].project && ListedBefore(project, Order(gs), gs, n)
  {
    var order := Order(gs);
    var k :| 0 <= k < n - 1 && order[k].index < |gs| && gs[order[k].index].project == project;
    OrderIsDistinct(gs, k, n - 1);
  }

  lemma {:induction false} ListedStandTogether(gs: seq<Group>, n: nat)
    requires GroupsOk(gs) && n <= |Order(gs)|
    ensures Contiguous(Listed(Order(gs), gs, n)) && OrderedWithinProjects(Listed(Order(gs), gs, n))
    ensures FromListed(Listed(Order(gs), gs, n), Order(gs), gs, n)
  {
    var order := Order(gs);
    if n > 0 {
      ListedStandTogether(gs, n - 1);
      OrderAt(gs, n - 1);
      var before, g := Listed(order, gs, n - 1), gs[order[n - 1].index];
      forall i | 0 <= i < |before|
        ensures before[i].project != g.project && ListedBefore(before[i].project, order, gs, n)
      {
        ListedAreOthers(gs, n, before[i].project);
      }
      GroupIsInOrder(gs, order[n - 1].index);
      AppendGroup(before, ByActivity(g.items), g.project, Listed(order, gs, n));
    }
  }

  lemma GroupIsInOrder(gs: seq<Group>, k: nat)
    requires GroupsOk(gs) && k < |gs|
    ensures var sorted := ByActivity(gs[k].items);
            InActivityOrder(sorted) && forall i :: 0 <= i < |sorted| ==> sorted[i].project == gs[k].project
  {
    assert GroupOk(gs[k]);
    MembersBelong(gs[k]);
    ByActivitySorts(gs[k].items);
  }

  /** Sorting by project makes the sessions of each project contiguous and orders them by activity. */
  lemma {:induction false} ByProjectGroups(s: seq<Summary>)
    ensures Contiguous(ByProject(s)) && OrderedWithinProjects(ByProject(s))
  {
    GroupedIsOk(s, |s|);
    var gs := Grouped(s, |s|);
    ListedStandTogether(gs, |Order(gs)|);
  }

  /** The newest dated activity among the first `n` summaries of a project. */
  function Newest(s: seq<Summary>, n: nat, project: string): Option<int>
    requires n <= |s|
  {
    if n == 0 then None
    else if s[n - 1].project == project then Later(Newest(s, n - 1, project), s[n - 1].activity)
    else Newest(s, n - 1, project)
  }

  /** Each group holds the newest activity of its project; a project without group has none. */
  ghost predicate LatestIsNewest(gs: seq<Group>, s: seq<Summary>, n: nat)
    requires n <= |s|
  {
    && (forall k :: 0 <= k < |gs| ==> gs[k].latest == Newest(s, n, gs[k].project))
    && (forall project :: GroupOf(gs, |gs|, project).None? ==> Newest(s, n, project).None?)
  }

  lemma {:induction false} GroupOfIs(gs: seq<Group>, n: nat, k: nat)
    requires k < n <= |gs| && forall i, j :: 0 <= i < j < |gs| ==> gs[i].project != gs[j].project
    ensures GroupOf(gs, n, gs[k].project) == Some(k)
  {
    if k < n - 1 {
      GroupOfIs(gs, n - 1, k);
    }
  }

  lemma {:induction false} GroupOfAny(gs: seq<Group>, n: nat, k: nat)
    requires k < n <= |gs|
    ensures GroupOf(gs, n, gs[k].project).Some?
  {
    if k < n - 1 {
      GroupOfAny(gs, n - 1, k);
    }
  }

  /** A project without group had none before, and is not the new summary's. */
  lemma {:induction false} GroupsOnlyGrow(gs: seq<Group>, x: Summary, after: seq<Group>, project: string)
    requires after == WithSummary(gs, x)
    ensures GroupOf(after, |after|, project).None? ==> GroupOf(gs, |gs|, project).None? && x.project != project
  {
    var at, own := GroupOf(gs, |gs|, project), GroupOf(gs, |gs|, x.project);
    if at.Some? {
      assert after[at.value].project == project;
      GroupOfAny(after, |after|, at.value);
    }
    GroupOfAny(after, |after|, if own.Some? then own.value else |gs|);
  }

  lemma {:induction false} OneMoreIsNewest(gs: seq<Group>, s: seq<Summary>, n: nat, after: seq<Group>)
    requires n < |s| && GroupsOk(gs) && LatestIsNewest(gs, s, n) && after == WithSummary(gs, s[n])
    ensures LatestIsNewest(after, s, n + 1)
  {
    forall k | 0 <= k < |after|
      ensures after[k].latest == Newest(s, n + 1, after[k].project)
    {
      if k < |gs| {
        GroupOfIs(gs, |gs|, k);
      }
    }
    forall project | GroupOf(after, |after|, project).None?
      ensures Newest(s, n + 1, project).None?
    {
      GroupsOnlyGrow(gs, s[n], after, project);
    }
  }

  lemma {:induction false} GroupedLatestIsNewest(s: seq<Summary>, n: nat, gs: seq<Group>)
    requires n <= |s| && gs == Grouped(s, n)
    ensures LatestIsNewest(gs, s, n)
  {
    if n > 0 {
      GroupedLatestIsNewest(s, n - 1, Grouped(s, n - 1));
      GroupedIsOk(s, n - 1);
      OneMoreIsNewest(Grouped(s, n - 1), s, n - 1, gs);
    }
  }

  /** Which of the groups in order the summary at `i` of the list comes from. */
  function Home(order: seq<Ranked>, gs: seq<Group>, n: nat, i: nat): (k: nat)
    requires n <= |order| && i < |Listed(order, gs, n)|
    ensures k < n
  {
    if i < |Listed(order, gs, n - 1)| then Home(order, gs, n - 1, i) else n - 1
  }

  lemma {:induction false} HomeHolds(order: seq<Ranked>, gs: seq<Group>, n: nat, i: nat)
    requires n <= |order| && i < |Listed(order, gs, n)|
    ensures Listed(order, gs, n)[i] in ByActivity(ItemsAt(gs, order[Home(order, gs, n, i)].index))
  {
    if i < |Listed(order, gs, n - 1)| {
      HomeHolds(order, gs, n - 1, i);
    }
  }

  lemma {:induction false} HomeRises(order: seq<Ranked>, gs: seq<Group>, n: nat, i: nat, j: nat)
    requires n <= |order| && i <= j < |Listed(order, gs, n)|
    ensures Home(order, gs, n, i) <= Home(order, gs, n, j)
  {
    if j < |Listed(order, gs, n - 1)| {
      HomeRises(order, gs, n - 1, i, j);
    }
  }

  lemma HomeHasTheProject(gs: seq<Group>, i: nat)
    requires GroupsOk(gs) && i < |Listed(Order(gs), gs, |Order(gs)|)|
    ensures var k := Order(gs)[Home(Order(gs), gs, |Order(gs)|, i)].index;
            k < |gs| && Listed(Order(gs), gs, |Order(gs)|)[i].project == gs[k].project
  {
    var home := Home(Order(gs), gs, |Order(gs)|, i);
    OrderAt(gs, home);
    var g := gs[Order(gs)[home].index];
    assert GroupOk(g);
    MembersBelong(g);
    HomeHolds(Order(gs), gs, |Order(gs)|, i);
  }

  lemma {:induction false} EarlierGroupsAreNewer(gs: seq<Group>, a: nat, b: nat)
    requires a <= b < |Order(gs)|
    ensures var p, q := Order(gs)[a].index, Order(gs)[b].index;
            p < |gs| && q < |gs| && (gs[q].latest.Some? ==> gs[p].latest.Some? && gs[p].latest.value >= gs[q].latest.value)
  {
    OrderSorts(gs);
    OrderAt(gs, a);
    OrderAt(gs, b);
  }

  /** In the resulting list projects stand in the order of their newest activity: the project of an
      earlier summary has a newest activity no older than that of a later one's, and projects with a
      dated activity stand before those without. */
  lemma {:induction false} ProjectsFollowLatestActivity(s: seq<Summary>, i: nat, j: nat)
    requires i < j < |ByProject(s)|
    ensures var x, y := Newest(s, |s|, ByProject(s)[i].project), Newest(s, |s|, ByProject(s)[j].project);
            y.Some? ==> x.Some? && x.value >= y.value
  {
    var gs := Grouped(s, |s|);
    GroupedIsOk(s, |s|);
    GroupedLatestIsNewest(s, |s|, gs);
    var order := Order(gs);
    HomeHasTheProject(gs, i);
    HomeHasTheProject(gs, j);
    HomeRises(order, gs, |order|, i, j);
    EarlierGroupsAreNewer(gs, Home(order, gs, |order|, i), Home(order, gs, |order|, j));
  }
}
