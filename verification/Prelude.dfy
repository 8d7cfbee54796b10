/** Small shared vocabulary. */
module Prelude {

  datatype Option<+T> = None | Some(value: T)

  datatype Result<+T, +E> = Ok(value: T) | Err(error: E)

  function Min(a: int, b: int): int { if a < b then a else b }

  function Max(a: int, b: int): int { if a < b then b else a }

  /** The elements marked to keep, in order. */
  function Filtered<T>(all: seq<T>, keep: seq<bool>): (r: seq<T>)
    requires |all| == |keep|
    ensures |r| <= |all|
  {
    if all == [] then []
    else
      var n := |all| - 1;
      Filtered(all[..n], keep[..n]) + if keep[n] then [all[n]] else []
  }

  lemma {:induction false} FilteredSnoc<T>(all: seq<T>, x: T, keep: seq<bool>, k: bool)
    requires |all| == |keep|
    ensures Filtered(all + [x], keep + [k]) == Filtered(all, keep) + if k then [x] else []
  {
    assert (all + [x])[..|all|] == all && (keep + [k])[..|all|] == keep;
  }

  lemma {:induction false} OneMoreKept<T>(all: seq<T>, keep: seq<bool>, n: nat, before: seq<T>)
    requires 0 < n <= |all| == |keep| && before == Filtered(all[..n - 1], keep[..n - 1])
    ensures Filtered(all[..n], keep[..n]) == before + if keep[n - 1] then [all[n - 1]] else []
  {
    FilteredSnoc(all[..n - 1], all[n - 1], keep[..n - 1], keep[n - 1]);
    assert all[..n] == all[..n - 1] + [all[n - 1]] && keep[..n] == keep[..n - 1] + [keep[n - 1]];
  }

  /** Each element kept is one that is marked, they stand in the same order, and none marked is left out. */
  lemma {:induction false} FilteredPicks<T>(all: seq<T>, keep: seq<bool>) returns (at: seq<nat>)
    requires |all| == |keep|
    ensures Picks(all, Filtered(all, keep), at) && Marks(keep, at)
  {
    at := [];
    if all != [] {
      var n := |all| - 1;
      at := FilteredPicks(all[..n], keep[..n]);
      assert all == all[..n] + [all[n]] && keep == keep[..n] + [keep[n]];
      MarksMore(keep[..n], keep[n], at);
      if keep[n] {
        at := at + [n];
      }
    }
  }

  predicate Picks<T(==)>(all: seq<T>, kept: seq<T>, at: seq<nat>)
  {
    && |kept| == |at|
    && (forall j :: 0 <= j < |at| ==> at[j] < |all| && kept[j] == all[at[j]])
    && forall j, k :: 0 <= j < k < |at| ==> at[j] < at[k]
  }

  predicate Marks(keep: seq<bool>, at: seq<nat>)
  {
    && (forall j :: 0 <= j < |at| ==> at[j] < |keep|)
    && forall i :: 0 <= i < |keep| ==> (i in at <==> keep[i])
  }

  lemma MarksMore(keep: seq<bool>, k: bool, at: seq<nat>)
    requires Marks(keep, at)
    ensures Marks(keep + [k], if k then at + [|keep|] else at)
  {
    var more := if k then at + [|keep|] else at;
    forall i | 0 <= i <= |keep|
      ensures i in more <==> (keep + [k])[i]
    {
      if i < |keep| {
        assert i in at <==> keep[i];
      } else {
        assert i !in at;
      }
    }
  }
}
