/**
 Rewriting project keys to canonical form (migrateProjectPaths in internal/server/projects.go).
 */
module ProjectPrefs {
  import opened Prelude
  import LogMeaning
  import Parsers

  datatype Pref = Pref(path: string, enabled: bool)

  /** The table by row id; no two rows have the same path. */
  type Table = map<nat, Pref>

  function Key(path: string): string { Parsers.CanonicalProject(path) }

  predicate PathsDiffer(t: Table) { forall a, b :: a in t && b in t && a != b ==> t[a].path != t[b].path }

  /** The rows as the query returned them: each once, in any order. */
  ghost predicate Lists(rows: seq<nat>, t: Table)
  {
    && (forall i, j :: 0 <= i < j < |rows| ==> rows[i] != rows[j])
    && (forall id :: id in rows <==> id in t)
  }

  /** Of the first `n` rows with a key, the one that stays: the first enabled one, else the first. */
  function Winner(rows: seq<nat>, n: nat, t: Table, key: string): Option<nat>
    requires n <= |rows| && forall id :: id in rows ==> id in t
  {
    if n == 0 then None
    else
      var w, id := Winner(rows, n - 1, t, key), rows[n - 1];
      assert id in rows;
      if Key(t[id].path) != key then w
      else if w.Some? && w.value in t && !(t[id].enabled && !t[w.value].enabled) then w
      else Some(id)
  }

  /** The winner has the key, and is enabled as soon as any row with the key is. */
  lemma {:induction false} WinnerIsBest(rows: seq<nat>, n: nat, t: Table, key: string)
    requires n <= |rows| && Lists(rows, t)
    ensures var w := Winner(rows, n, t, key);
            && (w.Some? ==> w.value in rows[..n] && w.value in t && Key(t[w.value].path) == key)
            && (forall i :: 0 <= i < n && Key(t[rows[i]].path) == key ==> w.Some? && (t[rows[i]].enabled ==> t[w.value].enabled))
  {
    if n > 0 {
      WinnerIsBest(rows, n - 1, t, key);
      assert rows[..n] == rows[..n - 1] + [rows[n - 1]];
    }
  }

  predicate HasKeyAt(rows: seq<nat>, t: Table, key: string, i: nat)
    requires i < |rows| && forall id :: id in rows ==> id in t
  {
    assert rows[i] in rows;
    Key(t[rows[i]].path) == key
  }

  predicate EnabledAt(rows: seq<nat>, t: Table, key: string, i: nat)
    requires i < |rows| && forall id :: id in rows ==> id in t
  {
    assert rows[i] in rows;
    HasKeyAt(rows, t, key, i) && t[rows[i]].enabled
  }

  predicate FirstBest(rows: seq<nat>, n: nat, t: Table, key: string, i: nat)
    requires i < n <= |rows| && forall id :: id in rows ==> id in t
  {
    && HasKeyAt(rows, t, key, i)
    && if EnabledAt(rows, t, key, i) then forall j :: 0 <= j < i ==> !EnabledAt(rows, t, key, j)
       else (forall j :: 0 <= j < n ==> !EnabledAt(rows, t, key, j)) && forall j :: 0 <= j < i ==> !HasKeyAt(rows, t, key, j)
  }

  /** Of the rows with a key the first enabled one wins, or, when none is enabled, the first one. */
  lemma {:induction false} WinnerIsFirst(rows: seq<nat>, n: nat, t: Table, key: string) returns (i: nat)
    requires n <= |rows| && forall id :: id in rows ==> id in t
    ensures Winner(rows, n, t, key).None? <==> forall j :: 0 <= j < n ==> !HasKeyAt(rows, t, key, j)
    ensures Winner(rows, n, t, key).Some? ==> i < n && Winner(rows, n, t, key) == Some(rows[i]) && FirstBest(rows, n, t, key, i)
  {
    i := 0;
    if n > 0 {
      i := WinnerIsFirst(rows, n - 1, t, key);
      var w := Winner(rows, n - 1, t, key);
      if HasKeyAt(rows, t, key, n - 1) && (w.None? || (EnabledAt(rows, t, key, n - 1) && !EnabledAt(rows, t, key, i))) {
        i := n - 1;
      }
    }
  }

  predicate Wins(rows: seq<nat>, t: Table, id: nat)
    requires (forall r :: r in rows ==> r in t) && id in t
  {
    Winner(rows, |rows|, t, Key(t[id].path)) == Some(id)
  }

  /** The table afterwards: the winners, each under its key. */
  function Migrated(rows: seq<nat>, t: Table): Table
    requires forall r :: r in rows ==> r in t
  {
    map id | id in t && Wins(rows, t, id) :: Pref(Key(t[id].path), t[id].enabled)
  }

  // --- The migration in steps --------------------------------------------------------

  class PrefTable {
    var rows: Table

    constructor (rows: Table)
      ensures this.rows == rows
    {
      this.rows := rows;
    }

    /** UPDATE of one path; refused when another row has the path. */
    method UpdatePath(id: nat, path: string) returns (ok: bool)
      requires id in rows
      modifies this
      ensures ok <==> forall other :: other in old(rows) && other != id ==> old(rows)[other].path != path
      ensures rows == if ok then old(rows)[id := old(rows)[id].(path := path)] else old(rows)
    {
      ok := !exists other :: other in rows && other != id && rows[other].path == path;
      if ok {
        rows := rows[id := rows[id].(path := path)];
      }
    }

    method PickWinners(all: seq<nat>) returns (winners: map<string, nat>)
      requires Lists(all, rows)
      ensures forall key :: (if key in winners then Some(winners[key]) else None) == Winner(all, |all|, rows, key)
    {
      winners := map[];
      for n := 0 to |all|
        invariant forall key :: key in winners ==> winners[key] in rows
        invariant forall key :: (if key in winners then Some(winners[key]) else None) == Winner(all, n, rows, key)
      {
        var id := all[n];
        assert id in all;
        var key := Key(rows[id].path);
        if key in winners && !(rows[id].enabled && !rows[winners[key]].enabled) {
          continue;
        }
        winners := winners[key := id];
      }
    }

    method DeleteLosers(all: seq<nat>, keep: set<nat>)
      requires Lists(all, rows)
      modifies this
      ensures rows == map id | id in old(rows) && id in keep :: old(rows)[id]
    {
      for n := 0 to |all|
        invariant rows == map id | id in old(rows) && (id in keep || id !in all[..n]) :: old(rows)[id]
      {
        assert all[..n + 1] == all[..n] + [all[n]];
        if all[n] !in keep {
          rows := rows - {all[n]};
        }
      }
      assert all[..|all|] == all;
    }

    /** Rewrites the winners one by one, in any order; no update is refused. */
    method Rewrite(winners: map<string, nat>)
      requires forall key :: key in winners ==> winners[key] in rows && Key(rows[winners[key]].path) == key
      requires forall id :: id in rows ==> Key(rows[id].path) in winners && winners[Key(rows[id].path)] == id
      modifies this
      ensures rows == map id | id in old(rows) :: Pref(Key(old(rows)[id].path), old(rows)[id].enabled)
    {
      var todo := winners.Keys;
      ghost var was := rows;
      while todo != {}
        invariant todo <= winners.Keys && PartlyRewritten(was, rows, todo)
        decreases |todo|
      {
        var key :| key in todo;
        NobodyElseHasTheKey(was, rows, todo, winners, key);
        Parsers.CanonicalIsStable(was[winners[key]].path);
        ghost var now := rows;
        var ok := UpdatePath(winners[key], key);
        OneRewritten(was, now, rows, todo, winners, key);
        todo := todo - {key};
      }
      AllRewritten(was, rows);
    }

    /** migrateProjectPaths. */
    method MigrateProjectPaths(all: seq<nat>)
      requires Lists(all, rows)
      modifies this
      ensures rows == Migrated(all, old(rows))
    {
      ghost var was := rows;
      var winners := PickWinners(all);
      WinnersHaveTheirKeys(all, rows, winners);
      var keep := set key | key in winners :: winners[key];
      DeleteLosers(all, keep);
      KeptAreWinners(all, was, winners, keep);
      ghost var kept := rows;
      Rewrite(winners);
      KeptThenRewritten(all, was, keep, kept, rows);
    }
  }

  function RewrittenOr(p: Pref, todo: set<string>): Pref { if Key(p.path) in todo then p else p.(path := Key(p.path)) }

  ghost predicate PartlyRewritten(was: Table, now: Table, todo: set<string>)
  {
    now.Keys == was.Keys && forall id :: id in was ==> now[id] == RewrittenOr(was[id], todo)
  }

  lemma WinnersHaveTheirKeys(rows: seq<nat>, t: Table, winners: map<string, nat>)
    requires Lists(rows, t)
    requires forall key :: (if key in winners then Some(winners[key]) else None) == Winner(rows, |rows|, t, key)
    ensures forall key :: key in winners ==> winners[key] in t && Key(t[winners[key]].path) == key
  {
    forall key | key in winners
      ensures winners[key] in t && Key(t[winners[key]].path) == key
    {
      WinnerIsBest(rows, |rows|, t, key);
    }
  }

  lemma KeptAreWinners(rows: seq<nat>, t: Table, winners: map<string, nat>, keep: set<nat>)
    requires Lists(rows, t)
    requires forall key :: (if key in winners then Some(winners[key]) else None) == Winner(rows, |rows|, t, key)
    requires forall key :: key in winners ==> winners[key] in t && Key(t[winners[key]].path) == key
    requires keep == set key | key in winners :: winners[key]
    ensures forall id :: id in t ==> (id in keep <==> Wins(rows, t, id))
  {
    forall id | id in t
      ensures id in keep <==> Wins(rows, t, id)
    {
      var key := Key(t[id].path);
      if id in keep {
        var k :| k in winners && winners[k] == id;
      }
    }
  }

  // --- What it achieves -----------------------------------------------------------------

  predicate AnyEnabled(t: Table, key: string) { exists id :: id in t && Key(t[id].path) == key && t[id].enabled }

  predicate HasKey(t: Table, key: string) { exists id :: id in t && Key(t[id].path) == key }

  /** Whatever order the rows come in: every key that was there has exactly one row, under the key
      itself, enabled exactly when some row that was merged into it was. */
  lemma {:induction false} OneRowPerKey(rows: seq<nat>, t: Table)
    requires Lists(rows, t)
    ensures PathsDiffer(Migrated(rows, t))
    ensures forall id :: id in Migrated(rows, t) ==>
              var p := Migrated(rows, t)[id];
              Key(p.path) == p.path && HasKey(t, p.path) && (p.enabled <==> AnyEnabled(t, p.path))
    ensures forall key :: HasKey(t, key) ==> exists id :: id in Migrated(rows, t) && Migrated(rows, t)[id].path == key
  {
    var m := Migrated(rows, t);
    forall id | id in m
      ensures var p := m[id]; Key(p.path) == p.path && HasKey(t, p.path) && (p.enabled <==> AnyEnabled(t, p.path))
    {
      var key := Key(t[id].path);
      Parsers.CanonicalIsStable(t[id].path);
      WinnerEnabledIff(rows, t, key, id);
    }
    forall key | HasKey(t, key)
      ensures exists id :: id in m && m[id].path == key
    {
      var row :| row in t && Key(t[row].path) == key;
      KeyHasWinner(rows, t, row);
    }
  }

  /** Afterwards every directory has one row: no two rows name paths that differ at most in slashes and, on a
      drive, in case; and each row stands for paths that differ from its own in nothing else. */
  lemma {:induction false} OneRowPerDirectory(rows: seq<nat>, t: Table, a: nat, b: nat)
    requires Lists(rows, t) && a in t && b in Migrated(rows, t)
    ensures a in Migrated(rows, t) && a != b ==> !LogMeaning.SameInKeys(Migrated(rows, t)[a].path, Migrated(rows, t)[b].path)
    ensures exists c :: c in Migrated(rows, t) && LogMeaning.SameInKeys(t[a].path, Migrated(rows, t)[c].path)
    ensures Migrated(rows, t)[b].enabled <==>
              exists c :: c in t && t[c].enabled && LogMeaning.SameInKeys(t[c].path, Migrated(rows, t)[b].path)
  {
    var m := Migrated(rows, t);
    OneRowPerKey(rows, t);
    assert HasKey(t, Key(t[a].path));
    forall c, d | c in t && d in m
      ensures LogMeaning.SameInKeys(t[c].path, m[d].path) <==> Key(t[c].path) == m[d].path
    {
      LogMeaning.KeysAgreeIff(t[c].path, m[d].path);
    }
    if a in m {
      LogMeaning.KeysAgreeIff(m[a].path, m[b].path);
    }
  }

  lemma WinnerEnabledIff(rows: seq<nat>, t: Table, key: string, id: nat)
    requires Lists(rows, t) && id in t && Winner(rows, |rows|, t, key) == Some(id)
    ensures t[id].enabled <==> AnyEnabled(t, key)
  {
    WinnerIsBest(rows, |rows|, t, key);
    if AnyEnabled(t, key) {
      var row :| row in t && Key(t[row].path) == key && t[row].enabled;
      assert row in rows;
      var i :| 0 <= i < |rows| && rows[i] == row;
    }
  }

  lemma KeyHasWinner(rows: seq<nat>, t: Table, row: nat)
    requires Lists(rows, t) && row in t
    ensures exists id :: id in Migrated(rows, t) && Migrated(rows, t)[id].path == Key(t[row].path)
  {
    var key := Key(t[row].path);
    WinnerIsBest(rows, |rows|, t, key);
    assert row in rows;
    var i :| 0 <= i < |rows| && rows[i] == row;
    var w := Winner(rows, |rows|, t, key).value;
    assert Wins(rows, t, w) && w in Migrated(rows, t);
  }

  /** Migrating a second time, in whatever order, changes nothing. */
  lemma {:induction false} MigratingTwice(rows: seq<nat>, t: Table, again: seq<nat>)
    requires Lists(rows, t) && Lists(again, Migrated(rows, t))
    ensures Migrated(again, Migrated(rows, t)) == Migrated(rows, t)
  {
    var m := Migrated(rows, t);
    OneRowPerKey(rows, t);
    forall id | id in m
      ensures Wins(again, m, id)
    {
      OnlyRowWins(again, m, id);
    }
  }

  lemma OnlyRowWins(rows: seq<nat>, m: Table, id: nat)
    requires Lists(rows, m) && id in m && PathsDiffer(m)
    requires forall other :: other in m ==> Key(m[other].path) == m[other].path
    ensures Wins(rows, m, id)
  {
    WinnerIsBest(rows, |rows|, m, Key(m[id].path));
    assert id in rows;
    var i :| 0 <= i < |rows| && rows[i] == id;
  }

  lemma AllRewritten(was: Table, now: Table)
    requires PartlyRewritten(was, now, {})
    ensures now == map id | id in was :: Pref(Key(was[id].path), was[id].enabled)
  {
  }

  lemma OneRewritten(was: Table, now: Table, after: Table, todo: set<string>, winners: map<string, nat>, key: string)
    requires PartlyRewritten(was, now, todo)
    requires forall id :: id in was ==> Key(was[id].path) in winners && winners[Key(was[id].path)] == id
    requires key in todo && key in winners && winners[key] in was && Key(was[winners[key]].path) == key
    requires after == now[winners[key] := now[winners[key]].(path := key)]
    ensures PartlyRewritten(was, after, todo - {key})
  {
  }

  lemma KeptThenRewritten(all: seq<nat>, was: Table, keep: set<nat>, kept: Table, after: Table)
    requires Lists(all, was) && forall id :: id in was ==> (id in keep <==> Wins(all, was, id))
    requires kept == map id | id in was && id in keep :: was[id]
    requires after == map id | id in kept :: Pref(Key(kept[id].path), kept[id].enabled)
    ensures after == Migrated(all, was)
  {
  }

  /** While the winners are being rewritten, a row other than the key's own has another path. */
  lemma NobodyElseHasTheKey(was: Table, now: Table, todo: set<string>, winners: map<string, nat>, key: string)
    requires PartlyRewritten(was, now, todo)
    requires forall id :: id in was ==> Key(was[id].path) in winners && winners[Key(was[id].path)] == id
    requires key in winners && winners[key] in was && Key(was[winners[key]].path) == key
    ensures forall other :: other in now && other != winners[key] ==> now[other].path != key
  {
    forall other | other in now && other != winners[key]
      ensures now[other].path != key
    {
      assert now[other] == RewrittenOr(was[other], todo);
      Parsers.CanonicalIsStable(was[winners[key]].path);
    }
  }
}
