/**
 The session cache (internal/sessions/cache.go): summaries and parsed sessions remembered by
 modification time, and an index from file name to path.

 What is in a file is a function of its path and modification time: the two parsers are given as
 such functions, absent where parsing fails.
 */
module Cache {
  import opened Prelude
  import opened Summaries

  /** A session file: its project directory under the sessions directory, and its name. */
  datatype Path = Path(project: string, name: string)

  type Parser = (Path, int) -> Option<Summary>

  /** A session file found by the directory scan. */
  datatype Record = Record(path: Path, modTime: int)

  datatype CacheEntry = CacheEntry(modTime: int, summary: Summary)

  type Entries = map<Path, CacheEntry>

  /** What is cached is what parsing the file at that time gives. */
  predicate EntryOk(parse: Parser, path: Path, e: CacheEntry) { parse(path, e.modTime) == Some(e.summary) }

  predicate Truthful(parse: Parser, entries: Entries)
  {
    forall p :: p in entries ==> EntryOk(parse, p, entries[p])
  }

  predicate IsHit(entries: Entries, r: Record) { r.path in entries && entries[r.path].modTime == r.modTime }

  function Hits(entries: Entries, records: seq<Record>, n: nat): seq<Summary>
    requires n <= |records|
  {
    if n == 0 then []
    else if IsHit(entries, records[n - 1]) then Hits(entries, records, n - 1) + [entries[records[n - 1].path].summary]
    else Hits(entries, records, n - 1)
  }

  function Misses(entries: Entries, records: seq<Record>, n: nat): seq<Record>
    requires n <= |records|
  {
    if n == 0 then []
    else if IsHit(entries, records[n - 1]) then Misses(entries, records, n - 1)
    else Misses(entries, records, n - 1) + [records[n - 1]]
  }

  /** The summary of one file parsed afresh; none when it does not parse. */
  function Fresh(parse: Parser, r: Record): seq<Summary>
  {
    var s := parse(r.path, r.modTime);
    if s.Some? then [s.value] else []
  }

  /** The summaries of the first `n` files, each parsed afresh; unparseable files are left out. */
  function ParsedAfresh(parse: Parser, records: seq<Record>, n: nat): seq<Summary>
    requires n <= |records|
  {
    if n == 0 then [] else ParsedAfresh(parse, records, n - 1) + Fresh(parse, records[n - 1])
  }

  lemma {:induction false} ParsedAgree(parse: Parser, a: seq<Record>, b: seq<Record>, n: nat)
    requires n <= |a| && n <= |b| && forall i :: 0 <= i < n ==> a[i] == b[i]
    ensures ParsedAfresh(parse, a, n) == ParsedAfresh(parse, b, n)
  {
    if n > 0 {
      ParsedAgree(parse, a, b, n - 1);
    }
  }

  lemma ParsedSnoc(parse: Parser, files: seq<Record>, r: Record)
    ensures ParsedAfresh(parse, files + [r], |files| + 1) == ParsedAfresh(parse, files, |files|) + Fresh(parse, r)
  {
    ParsedAgree(parse, files + [r], files, |files|);
  }

  lemma BagsGrow(a: seq<Summary>, b: seq<Summary>, c: seq<Summary>, x: seq<Summary>)
    requires multiset(a) + multiset(b) == multiset(c)
    ensures multiset(a + x) + multiset(b) == multiset(c + x)
    ensures multiset(a) + multiset(b + x) == multiset(c + x)
  {
  }

  /** The summaries of the files that are parsed. */
  function ParsedMisses(parse: Parser, entries: Entries, records: seq<Record>): seq<Summary>
  {
    var misses := Misses(entries, records, |records|);
    ParsedAfresh(parse, misses, |misses|)
  }

  lemma {:induction false} HitsAndMissesUpTo(parse: Parser, entries: Entries, records: seq<Record>, n: nat, parsed: seq<Summary>)
    requires Truthful(parse, entries) && n <= |records|
    requires parsed == ParsedAfresh(parse, Misses(entries, records, n), |Misses(entries, records, n)|)
    ensures multiset(Hits(entries, records, n)) + multiset(parsed) == multiset(ParsedAfresh(parse, records, n))
  {
    if n > 0 {
      var r, hits, misses := records[n - 1], Hits(entries, records, n - 1), Misses(entries, records, n - 1);
      var before := ParsedAfresh(parse, misses, |misses|);
      HitsAndMissesUpTo(parse, entries, records, n - 1, before);
      BagsGrow(hits, before, ParsedAfresh(parse, records, n - 1), Fresh(parse, r));
      if IsHit(entries, r) {
        assert EntryOk(parse, r.path, entries[r.path]);
        assert Hits(entries, records, n) == hits + Fresh(parse, r) && parsed == before;
      } else {
        ParsedSnoc(parse, misses, r);
        assert Hits(entries, records, n) == hits && parsed == before + Fresh(parse, r);
      }
    }
  }

  /** Cached summaries and parsed misses together are what parsing every file afresh gives. */
  lemma {:induction false} HitsAndMisses(parse: Parser, entries: Entries, records: seq<Record>)
    requires Truthful(parse, entries)
    ensures multiset(Hits(entries, records, |records|)) + multiset(ParsedMisses(parse, entries, records)) ==
              multiset(ParsedAfresh(parse, records, |records|))
  {
    HitsAndMissesUpTo(parse, entries, records, |records|, ParsedMisses(parse, entries, records));
  }

  /** Every file once, as a directory listing gives them. */
  predicate Listing(records: seq<Record>)
  {
    forall i, j :: 0 <= i < j < |records| ==> records[i].path != records[j].path
  }

  function Seen(records: seq<Record>): set<Path> { set r | r in records :: r.path }

  /** The entries without the files that are gone. */
  function Present(entries: Entries, seen: set<Path>): Entries
  {
    map p | p in entries && p in seen :: entries[p]
  }

  /** The entries with the first `n` parsed files remembered. */
  function Remembered(parse: Parser, entries: Entries, files: seq<Record>, n: nat): Entries
    requires n <= |files|
  {
    if n == 0 then entries
    else
      var f := files[n - 1];
      var s := parse(f.path, f.modTime);
      if s.Some? then Remembered(parse, entries, files, n - 1)[f.path := CacheEntry(f.modTime, s.value)]
      else Remembered(parse, entries, files, n - 1)
  }

  /** The entries after a LoadAll. */
  function Loaded(parse: Parser, entries: Entries, records: seq<Record>): Entries
  {
    var misses := Misses(entries, records, |records|);
    Remembered(parse, Present(entries, Seen(records)), misses, |misses|)
  }

  lemma {:induction false} RememberedIsTruthful(parse: Parser, entries: Entries, files: seq<Record>, n: nat)
    requires Truthful(parse, entries) && n <= |files|
    ensures Truthful(parse, Remembered(parse, entries, files, n))
  {
    if n > 0 {
      RememberedIsTruthful(parse, entries, files, n - 1);
      var before, after := Remembered(parse, entries, files, n - 1), Remembered(parse, entries, files, n);
      forall p | p in after
        ensures EntryOk(parse, p, after[p])
      {
        if p in before && after[p] == before[p] {
          assert EntryOk(parse, p, before[p]);
        }
      }
    }
  }

  /** Parsing one of the files leaves it cached; the others are as before. */
  lemma {:induction false} RememberedAt(parse: Parser, entries: Entries, files: seq<Record>, n: nat, p: Path)
    requires n <= |files| && forall i, j :: 0 <= i < j < n ==> files[i].path != files[j].path
    ensures var after := Remembered(parse, entries, files, n);
            && (forall i :: 0 <= i < n && files[i].path == p && parse(p, files[i].modTime).Some? ==>
                  p in after && after[p] == CacheEntry(files[i].modTime, parse(p, files[i].modTime).value))
            && ((forall i :: 0 <= i < n && files[i].path == p ==> parse(p, files[i].modTime).None?) ==>
                  (p in after <==> p in entries) && (p in entries ==> after[p] == entries[p]))
  {
    if n > 0 {
      RememberedAt(parse, entries, files, n - 1, p);
    }
  }

  lemma {:induction false} MissesArePart(entries: Entries, records: seq<Record>, n: nat)
    requires n <= |records| && Listing(records)
    ensures var misses := Misses(entries, records, n);
            && Listing(misses)
            && (forall i :: 0 <= i < |misses| ==> misses[i] in records[..n] && !IsHit(entries, misses[i]))
            && (forall i :: 0 <= i < n && !IsHit(entries, records[i]) ==> records[i] in misses)
  {
    if n > 0 {
      MissesArePart(entries, records, n - 1);
      OneMoreMissed(entries, records, n, Misses(entries, records, n - 1), Misses(entries, records, n));
    }
  }

  lemma OneMoreMissed(entries: Entries, records: seq<Record>, n: nat, before: seq<Record>, misses: seq<Record>)
    requires 0 < n <= |records| && Listing(records) && Listing(before)
    requires misses == if IsHit(entries, records[n - 1]) then before else before + [records[n - 1]]
    requires forall i :: 0 <= i < |before| ==> before[i] in records[..n - 1] && !IsHit(entries, before[i])
    requires forall i :: 0 <= i < n - 1 && !IsHit(entries, records[i]) ==> records[i] in before
    ensures Listing(misses)
    ensures forall i :: 0 <= i < |misses| ==> misses[i] in records[..n] && !IsHit(entries, misses[i])
    ensures forall i :: 0 <= i < n && !IsHit(entries, records[i]) ==> records[i] in misses
  {
    assert records[..n] == records[..n - 1] + [records[n - 1]];
  }

  predicate Parseable(parse: Parser, r: Record) { parse(r.path, r.modTime).Some? }

  /** After a load, a file still unchanged is a hit exactly when it parses. */
  lemma {:induction false} LoadedHits(parse: Parser, entries: Entries, records: seq<Record>, k: nat)
    requires Truthful(parse, entries) && Listing(records) && k < |records|
    ensures IsHit(Loaded(parse, entries, records), records[k]) <==> Parseable(parse, records[k])
  {
    var r := records[k];
    var misses, seen := Misses(entries, records, |records|), Seen(records);
    MissesArePart(entries, records, |records|);
    assert records[..|records|] == records;
    RememberedAt(parse, Present(entries, seen), misses, |misses|, r.path);
    if IsHit(entries, r) {
      assert EntryOk(parse, r.path, entries[r.path]);
      forall i | 0 <= i < |misses|
        ensures misses[i].path != r.path
      {
        MissIsNot(entries, records, misses[i], k);
      }
      assert r.path in seen;
    } else {
      assert r in misses;
      var i :| 0 <= i < |misses| && misses[i] == r;
      forall j | 0 <= j < |misses| && j != i
        ensures misses[j].path != r.path
      {
      }
    }
  }

  lemma MissIsNot(entries: Entries, records: seq<Record>, miss: Record, k: nat)
    requires Listing(records) && k < |records| && miss in records && !IsHit(entries, miss) && IsHit(entries, records[k])
    ensures miss.path != records[k].path
  {
    var i :| 0 <= i < |records| && records[i] == miss;
  }

  function Unparseable(parse: Parser, records: seq<Record>, n: nat): seq<Record>
    requires n <= |records|
  {
    if n == 0 then []
    else if Parseable(parse, records[n - 1]) then Unparseable(parse, records, n - 1)
    else Unparseable(parse, records, n - 1) + [records[n - 1]]
  }

  /** A second load of unchanged files parses exactly those that do not parse. */
  lemma {:induction false} SecondLoadParses(parse: Parser, entries: Entries, records: seq<Record>, n: nat)
    requires Truthful(parse, entries) && Listing(records) && n <= |records|
    ensures Misses(Loaded(parse, entries, records), records, n) == Unparseable(parse, records, n)
  {
    if n > 0 {
      SecondLoadParses(parse, entries, records, n - 1);
      LoadedHits(parse, entries, records, n - 1);
    }
  }

  /** When every file parses the second load parses nothing. */
  lemma {:induction false} NothingUnparseable(parse: Parser, records: seq<Record>, n: nat)
    requires n <= |records|
    ensures Unparseable(parse, records, n) == [] <==> forall i :: 0 <= i < n ==> Parseable(parse, records[i])
  {
    if n > 0 {
      NothingUnparseable(parse, records, n - 1);
    }
  }

  // --- The path index ---------------------------------------------------------------------

  type Index = map<string, Path>

  /** A name leads to a path of that name. */
  predicate NamesMatch(index: Index) { forall name :: name in index ==> index[name].name == name }

  /** Every cached summary can be found by name. */
  predicate Complete(entries: Entries, index: Index) { forall p :: p in entries ==> p.name in index }

  function NamesOf(paths: set<Path>): set<string> { set p | p in paths :: p.name }

  lemma OneMoreName(paths: set<Path>, p: Path)
    ensures NamesOf(paths + {p}) == NamesOf(paths) + {p.name}
  {
    assert forall q :: q in paths ==> q in paths + {p};
  }

  /** The files gone are those not seen, but for those in `todo`, and they and their names are forgotten. */
  ghost predicate Evicted(was: Entries, wasIndex: Index, seen: set<Path>, todo: set<Path>, gone: set<Path>,
                          entries: Entries, index: Index)
  {
    && gone <= was.Keys && gone !! todo && entries == was - gone && index == wasIndex - NamesOf(gone)
    && (forall p :: p in was && p !in todo ==> (p in gone <==> p !in seen))
  }

  lemma EvictsOne(was: Entries, wasIndex: Index, seen: set<Path>, todo: set<Path>, gone: set<Path>,
                  entries: Entries, index: Index, p: Path)
    requires Evicted(was, wasIndex, seen, todo, gone, entries, index) && p in todo && p in was
    ensures if p in seen then Evicted(was, wasIndex, seen, todo - {p}, gone, entries, index)
            else Evicted(was, wasIndex, seen, todo - {p}, gone + {p}, entries - {p}, index - {p.name})
  {
    OneMoreName(gone, p);
  }

  lemma EvictedAll(was: Entries, wasIndex: Index, seen: set<Path>, gone: set<Path>, entries: Entries, index: Index)
    requires Evicted(was, wasIndex, seen, {}, gone, entries, index)
    ensures entries == Present(was, seen) && index == wasIndex - GoneNames(was, seen)
  {
    assert gone == set p | p in was && p !in seen;
    assert NamesOf(gone) == GoneNames(was, seen);
  }

  /** The names of the files that are gone. */
  function GoneNames(entries: Entries, seen: set<Path>): set<string>
  {
    set p | p in entries && p !in seen :: p.name
  }

  /** After evictions alone the index still finds every cached file exactly when no file that went
      shared its name with one that stayed. */
  lemma {:induction false} IndexSurvivesIffNoTwin(entries: Entries, index: Index, seen: set<Path>)
    requires Complete(entries, index)
    ensures Complete(Present(entries, seen), index - GoneNames(entries, seen)) <==>
              forall p, q :: p in entries && q in entries && p in seen && q !in seen ==> p.name != q.name
  {
    var after := index - GoneNames(entries, seen);
    if Complete(Present(entries, seen), after) {
      forall p, q | p in entries && q in entries && p in seen && q !in seen
        ensures p.name != q.name
      {
        assert p in Present(entries, seen) && p.name in after;
        assert q.name in GoneNames(entries, seen);
      }
    }
  }

  // --- The cache ---------------------------------------------------------------------------

  /** A session with all its entries. */
  datatype Session = Session(summary: Summary, entries: seq<string>)

  type SessionParser = (Path, int) -> Option<Session>

  datatype SessionEntry = SessionEntry(modTime: int, session: Session)

  datatype ResolveError = InvalidSessionId | SessionNotFound | FileGone | Unreadable

  /** The files on disk with their modification times, in the order the scan finds them. */
  type Disk = seq<Record>

  function ModTimeOf(disk: Disk, n: nat, p: Path): Option<int>
    requires n <= |disk|
  {
    if n == 0 then None
    else
      var before := ModTimeOf(disk, n - 1, p);
      if before.Some? then before else if disk[n - 1].path == p then Some(disk[n - 1].modTime) else None
  }

  /** The first file of that name. */
  function ScanFor(disk: Disk, n: nat, name: string): (r: Option<Path>)
    requires n <= |disk|
    ensures r.Some? ==> r.value.name == name
  {
    if n == 0 then None
    else
      var before := ScanFor(disk, n - 1, name);
      if before.Some? then before else if disk[n - 1].path.name == name then Some(disk[n - 1].path) else None
  }

  predicate IdOk(id: string)
  {
    |id| >= 6 && id[|id| - 6..] == ".jsonl" && forall i :: 0 <= i < |id| ==> id[i] != '/'
  }

  class SessionCache {
    const parse: Parser
    const parseFull: SessionParser
    var entries: Entries
    var pathIndex: Index
    var sessions: map<Path, SessionEntry>
    var parses: nat
    var hits: nat

    predicate SessionOk(p: Path)
      requires p in sessions
      reads this
    {
      parseFull(p, sessions[p].modTime) == Some(sessions[p].session)
    }

    predicate Valid()
      reads this
    {
      && Truthful(parse, entries)
      && NamesMatch(pathIndex)
      && forall p :: p in sessions ==> SessionOk(p)
    }

    constructor (parse: Parser, parseFull: SessionParser)
      ensures Valid() && this.parse == parse && this.parseFull == parseFull && entries == map[]
    {
      this.parse, this.parseFull := parse, parseFull;
      entries, pathIndex, sessions := map[], map[], map[];
      parses, hits := 0, 0;
    }

    /** Splits the files found into those cached and those to parse. */
    method Partition(records: seq<Record>) returns (cached: seq<Summary>, toparse: seq<Record>)
      modifies this`hits
      ensures cached == Hits(entries, records, |records|) && toparse == Misses(entries, records, |records|)
      ensures hits == old(hits) + |cached|
    {
      cached, toparse := [], [];
      for n := 0 to |records|
        invariant cached == Hits(entries, records, n) && toparse == Misses(entries, records, n)
        invariant hits == old(hits) + |cached|
      {
        var rec := records[n];
        if rec.path in entries && entries[rec.path].modTime == rec.modTime {
          hits := hits + 1;
          cached := cached + [entries[rec.path].summary];
        } else {
          toparse := toparse + [rec];
        }
      }
    }

    /** Forgets the files that are gone, and their names. */
    method Evict(seen: set<Path>)
      requires NamesMatch(pathIndex)
      modifies this`entries, this`pathIndex
      ensures entries == Present(old(entries), seen) && NamesMatch(pathIndex)
      ensures pathIndex == old(pathIndex) - GoneNames(old(entries), seen)
    {
      var todo := entries.Keys;
      ghost var was := entries;
      ghost var wasIndex := pathIndex;
      ghost var gone: set<Path> := {};
      while todo != {}
        invariant todo <= was.Keys && NamesMatch(pathIndex)
        invariant Evicted(was, wasIndex, seen, todo, gone, entries, pathIndex)
        decreases |todo|
      {
        var p :| p in todo;
        EvictsOne(was, wasIndex, seen, todo, gone, entries, pathIndex, p);
        todo := todo - {p};
        if p !in seen {
          entries := entries - {p};
          pathIndex := pathIndex - {p.name};
          gone := gone + {p};
        }
      }
      EvictedAll(was, wasIndex, seen, gone, entries, pathIndex);
    }

    /** Parses the files and remembers those that parse. */
    method ParseAll(files: seq<Record>) returns (summaries: seq<Summary>)
      requires Truthful(parse, entries) && NamesMatch(pathIndex)
      modifies this`entries, this`pathIndex, this`parses
      ensures summaries == ParsedAfresh(parse, files, |files|)
      ensures entries == Remembered(parse, old(entries), files, |files|) && Truthful(parse, entries)
      ensures parses == old(parses) + |summaries| && NamesMatch(pathIndex)
      ensures old(pathIndex).Keys <= pathIndex.Keys
    {
      summaries := [];
      for n := 0 to |files|
        invariant summaries == ParsedAfresh(parse, files, n) && entries == Remembered(parse, old(entries), files, n)
        invariant parses == old(parses) + |summaries| && NamesMatch(pathIndex)
        invariant old(pathIndex).Keys <= pathIndex.Keys
      {
        var f := files[n];
        var s := parse(f.path, f.modTime);
        if s.Some? {
          parses := parses + 1;
          entries := entries[f.path := CacheEntry(f.modTime, s.value)];
          pathIndex := pathIndex[f.path.name := f.path];
          summaries := summaries + [s.value];
        }
      }
      RememberedIsTruthful(parse, old(entries), files, |files|);
    }

    /** Names of cached files that are not in the index are put in. */
    method Reindex()
      requires NamesMatch(pathIndex)
      modifies this`pathIndex
      ensures NamesMatch(pathIndex) && Complete(entries, pathIndex)
    {
      var todo := entries.Keys;
      while todo != {}
        invariant todo <= entries.Keys && NamesMatch(pathIndex)
        invariant forall p :: p in entries && p !in todo ==> p.name in pathIndex
        decreases |todo|
      {
        var p :| p in todo;
        todo := todo - {p};
        if p.name !in pathIndex {
          pathIndex := pathIndex[p.name := p];
        }
      }
    }

    /** The part of LoadAll before sorting. */
    method Refresh(records: seq<Record>) returns (summaries: seq<Summary>)
      requires Truthful(parse, entries) && NamesMatch(pathIndex)
      modifies this`entries, this`pathIndex, this`hits, this`parses
      ensures entries == Loaded(parse, old(entries), records) && NamesMatch(pathIndex)
      ensures summaries == Hits(old(entries), records, |records|) + ParsedMisses(parse, old(entries), records)
      ensures parses == old(parses) + |ParsedMisses(parse, old(entries), records)|
      ensures hits == old(hits) + |Hits(old(entries), records, |records|)|
      ensures if Misses(old(entries), records, |records|) == []
              then pathIndex == old(pathIndex) - GoneNames(old(entries), Seen(records))
              else Complete(entries, pathIndex)
    {
      PresentIsTruthful(parse, entries, Seen(records));
      var cached, toparse := Partition(records);
      Evict(Seen(records));
      if |toparse| == 0 {
        assert ParsedMisses(parse, old(entries), records) == [];
        return cached + [];
      }
      var parsed := ParseAll(toparse);
      Reindex();
      summaries := cached + parsed;
    }

    /**
     LoadAll over the files the scan found. The result is, as a bag, every file parsed afresh, in
     activity order; only files that are new, changed or did not parse are parsed. The index finds
     every cached file again unless nothing was parsed and a file of the same name was evicted.
     */
    method LoadAll(records: seq<Record>) returns (r: seq<Summary>)
      requires Valid() && Listing(records)
      modifies this
      ensures Valid() && entries == Loaded(parse, old(entries), records) && sessions == old(sessions)
      ensures multiset(r) == multiset(ParsedAfresh(parse, records, |records|)) && InActivityOrder(r)
      ensures parses == old(parses) + |ParsedMisses(parse, old(entries), records)|
      ensures hits == old(hits) + |Hits(old(entries), records, |records|)|
      ensures if Misses(old(entries), records, |records|) == []
              then pathIndex == old(pathIndex) - GoneNames(old(entries), Seen(records))
              else Complete(entries, pathIndex)
    {
      HitsAndMisses(parse, entries, records);
      LoadedIsTruthful(parse, entries, records);
      assert forall q :: q in sessions ==> SessionOk(q);
      var summaries := Refresh(records);
      assert forall q :: q in sessions ==> old(SessionOk(q)) && SessionOk(q);
      r := Sort(summaries);
    }

    /** Remove: the session's path, found by name, is dropped everywhere. */
    method Remove(id: string)
      requires Valid()
      modifies this
      ensures Valid()
      ensures id in old(pathIndex) ==>
                var p := old(pathIndex)[id];
                entries == old(entries) - {p} && sessions == old(sessions) - {p} && pathIndex == old(pathIndex) - {id}
      ensures id !in old(pathIndex) ==> entries == old(entries) && sessions == old(sessions) && pathIndex == old(pathIndex)
    {
      if id in pathIndex {
        var p := pathIndex[id];
        ghost var was := entries;
        entries := entries - {p};
        forall q | q in entries
          ensures EntryOk(parse, q, entries[q])
        {
          assert EntryOk(parse, q, was[q]);
        }
        forall q | q in sessions
          ensures SessionOk(q)
        {
        }
        sessions := sessions - {p};
        pathIndex := pathIndex - {id};
        assert forall q :: q in sessions ==> old(SessionOk(q));
      }
    }

    /**
     Resolve: what it returns is what parsing the file as it is on disk now gives. A name in the
     index is not looked for again, so a file that moved is reported gone.
     */
    method Resolve(disk: Disk, id: string) returns (r: Result<(Session, Path), ResolveError>)
      requires Valid()
      modifies this`pathIndex, this`sessions
      ensures Valid() && r == Resolved(disk, old(pathIndex), parseFull, id)
      ensures r.Ok? ==> r.value.1.name == id && pathIndex == old(pathIndex)[id := r.value.1]
      ensures pathIndex - {id} == old(pathIndex) - {id} && (id in old(pathIndex) ==> pathIndex == old(pathIndex))
      ensures r.Err? ==> sessions == old(sessions)
      ensures r.Ok? ==>
                var modTime := ModTimeOf(disk, |disk|, r.value.1);
                modTime.Some? && sessions == old(sessions)[r.value.1 := SessionEntry(modTime.value, r.value.0)]
    {
      if !IdOk(id) {
        return Err(InvalidSessionId);
      }
      var path;
      if id in pathIndex {
        path := pathIndex[id];
      } else {
        var found := ScanFor(disk, |disk|, id);
        if found.None? {
          return Err(SessionNotFound);
        }
        path := found.value;
        pathIndex := pathIndex[id := path];
      }
      assert forall q :: q in sessions ==> old(SessionOk(q)) && SessionOk(q);
      var modTime := ModTimeOf(disk, |disk|, path);
      if modTime.None? {
        return Err(FileGone);
      }
      if path in sessions && sessions[path].modTime == modTime.value {
        assert sessions == sessions[path := SessionEntry(modTime.value, sessions[path].session)];
        return Ok((sessions[path].session, path));
      }
      var session := parseFull(path, modTime.value);
      if session.None? {
        return Err(Unreadable);
      }
      ghost var was := sessions;
      sessions := sessions[path := SessionEntry(modTime.value, session.value)];
      assert forall q :: q in sessions ==> SessionOk(q);
      r := Ok((session.value, path));
    }
  }

  /** Resolving without a cache of parsed sessions. */
  function Resolved(disk: Disk, index: Index, parseFull: SessionParser, id: string): Result<(Session, Path), ResolveError>
  {
    var path := if id in index then Some(index[id]) else ScanFor(disk, |disk|, id);
    if !IdOk(id) then Err(InvalidSessionId)
    else if path.None? then Err(SessionNotFound)
    else
      var modTime := ModTimeOf(disk, |disk|, path.value);
      if modTime.None? then Err(FileGone)
      else
        var session := parseFull(path.value, modTime.value);
        if session.None? then Err(Unreadable) else Ok((session.value, path.value))
  }

  predicate NamedAt(disk: Disk, i: nat, name: string)
    requires i < |disk|
  {
    disk[i].path.name == name && forall j :: 0 <= j < i ==> disk[j].path.name != name
  }

  predicate PathAt(disk: Disk, i: nat, p: Path)
    requires i < |disk|
  {
    disk[i].path == p && forall j :: 0 <= j < i ==> disk[j].path != p
  }

  lemma {:induction false} ScanFindsFirst(disk: Disk, n: nat, name: string)
    requires n <= |disk|
    ensures forall i: nat :: i < n && NamedAt(disk, i, name) ==> ScanFor(disk, n, name) == Some(disk[i].path)
    ensures ScanFor(disk, n, name).None? <==> forall i :: 0 <= i < n ==> disk[i].path.name != name
  {
    if n > 0 {
      ScanFindsFirst(disk, n - 1, name);
    }
  }

  lemma {:induction false} StatFindsFirst(disk: Disk, n: nat, p: Path)
    requires n <= |disk|
    ensures forall i: nat :: i < n && PathAt(disk, i, p) ==> ModTimeOf(disk, n, p) == Some(disk[i].modTime)
    ensures ModTimeOf(disk, n, p).None? <==> forall i :: 0 <= i < n ==> disk[i].path != p
  {
    if n > 0 {
      StatFindsFirst(disk, n - 1, p);
    }
  }

  /** A file name with the extension of a log. */
  ghost predicate LogName(id: string) { '/' !in id && exists stem :: id == stem + ".jsonl" }

  function Parsed(parseFull: SessionParser, f: Record): Result<(Session, Path), ResolveError>
  {
    match parseFull(f.path, f.modTime)
    case Some(session) => Ok((session, f.path))
    case None => Err(Unreadable)
  }

  /** A name the index does not know is answered by the first file that has it. */
  lemma {:induction false} UnknownNameIsScannedFor(disk: Disk, index: Index, parseFull: SessionParser, id: string)
    requires id !in index
    ensures Resolved(disk, index, parseFull, id) == Err(InvalidSessionId) <==> !LogName(id)
    ensures forall i: nat :: i < |disk| && NamedAt(disk, i, id) && LogName(id) ==>
              Resolved(disk, index, parseFull, id) == Parsed(parseFull, disk[i])
    ensures LogName(id) && (forall i :: 0 <= i < |disk| ==> disk[i].path.name != id) ==>
              Resolved(disk, index, parseFull, id) == Err(SessionNotFound)
  {
    LogNameIff(id);
    ScanFindsFirst(disk, |disk|, id);
    forall i: nat | i < |disk| && NamedAt(disk, i, id)
      ensures ModTimeOf(disk, |disk|, disk[i].path) == Some(disk[i].modTime)
    {
      StatFindsFirst(disk, |disk|, disk[i].path);
      assert PathAt(disk, i, disk[i].path);
    }
  }

  lemma LogNameIff(id: string)
    ensures IdOk(id) <==> LogName(id)
  {
    if IdOk(id) {
      assert id == id[..|id| - 6] + ".jsonl";
    }
  }

  /** A name the index knows is answered by the path it leads to, as it is on disk now. */
  lemma {:induction false} KnownNameIsLookedUp(disk: Disk, index: Index, parseFull: SessionParser, id: string)
    requires id in index
    ensures Resolved(disk, index, parseFull, id) == Err(InvalidSessionId) <==> !LogName(id)
    ensures forall i: nat :: i < |disk| && PathAt(disk, i, index[id]) && LogName(id) ==>
              Resolved(disk, index, parseFull, id) == Parsed(parseFull, disk[i])
    ensures LogName(id) && (forall i :: 0 <= i < |disk| ==> disk[i].path != index[id]) ==>
              Resolved(disk, index, parseFull, id) == Err(FileGone)
  {
    LogNameIff(id);
    StatFindsFirst(disk, |disk|, index[id]);
  }

  lemma PresentIsTruthful(parse: Parser, entries: Entries, seen: set<Path>)
    requires Truthful(parse, entries)
    ensures Truthful(parse, Present(entries, seen))
  {
    forall p | p in Present(entries, seen)
      ensures EntryOk(parse, p, Present(entries, seen)[p])
    {
      assert EntryOk(parse, p, entries[p]);
    }
  }

  lemma LoadedIsTruthful(parse: Parser, entries: Entries, records: seq<Record>)
    requires Truthful(parse, entries)
    ensures Truthful(parse, Loaded(parse, entries, records))
  {
    var misses := Misses(entries, records, |records|);
    PresentIsTruthful(parse, entries, Seen(records));
    RememberedIsTruthful(parse, Present(entries, Seen(records)), misses, |misses|);
  }

  method Sort(s: seq<Summary>) returns (r: seq<Summary>)
    ensures multiset(r) == multiset(s) && InActivityOrder(r)
  {
    r := SortedCopy(s);
    ByActivitySorts(s);
  }

  // --- Histories ------------------------------------------------------------------------------

  /** Loads and removals, with any changes to the files between them. */
  datatype History = Start | Load(before: History, records: seq<Record>) | Drop(before: History, path: Path)

  function EntriesAfter(parse: Parser, h: History): Entries
  {
    match h
    case Start => map[]
    case Load(before, records) => Loaded(parse, EntriesAfter(parse, before), records)
    case Drop(before, path) => EntriesAfter(parse, before) - {path}
  }

  lemma {:induction false} AlwaysTruthful(parse: Parser, h: History)
    ensures Truthful(parse, EntriesAfter(parse, h))
  {
    match h
    case Start =>
    case Load(before, records) =>
      AlwaysTruthful(parse, before);
      LoadedIsTruthful(parse, EntriesAfter(parse, before), records);
    case Drop(before, path) =>
      AlwaysTruthful(parse, before);
      forall p | p in EntriesAfter(parse, h)
        ensures EntryOk(parse, p, EntriesAfter(parse, h)[p])
      {
        assert EntryOk(parse, p, EntriesAfter(parse, before)[p]);
      }
  }

  /** After any history the next load gives what parsing every file afresh gives, and a further load
      of the same files parses again only those that do not parse: nothing exactly when all do. */
  lemma {:induction false} AnyHistoryLoadsAfresh(parse: Parser, h: History, records: seq<Record>)
    requires Listing(records)
    ensures var entries := EntriesAfter(parse, h);
            && multiset(Hits(entries, records, |records|)) + multiset(ParsedMisses(parse, entries, records)) ==
                 multiset(ParsedAfresh(parse, records, |records|))
            && var again := Misses(EntriesAfter(parse, Load(h, records)), records, |records|);
               again == Unparseable(parse, records, |records|)
               && (again == [] <==> forall i :: 0 <= i < |records| ==> Parseable(parse, records[i]))
  {
    AlwaysTruthful(parse, h);
    HitsAndMisses(parse, EntriesAfter(parse, h), records);
    SecondLoadParses(parse, EntriesAfter(parse, h), records, |records|);
    NothingUnparseable(parse, records, |records|);
  }
}
