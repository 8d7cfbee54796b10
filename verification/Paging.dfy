/**
 Windows over long lists: the tail a session page starts with (internal/ui/session_page.go), the
 windows "load earlier" asks for, and pages of summaries (internal/server/handlers.go).
 */
module Paging {
  import opened Prelude
  import opened Text
  import opened Numerals

  /** The limits; all but the byte budget are positive, and a budget that is not switches the byte
      cap off. */
  datatype Limits = Limits(threshold: nat, tail: nat, maxBytes: int, minTail: nat)

  /** The bytes of the entries from `i` on. */
  function Bytes(sizes: seq<nat>, i: nat): nat
    requires i <= |sizes|
    decreases |sizes| - i
  {
    if i == |sizes| then 0 else sizes[i] + Bytes(sizes, i + 1)
  }

  /** The bytes of a stretch and what follows it add up, and one entry counts as itself. */
  lemma {:induction false} BytesAddUp(sizes: seq<nat>, i: nat, j: nat)
    requires i <= j <= |sizes|
    ensures Bytes(sizes, i) == Bytes(sizes[i..j], 0) + Bytes(sizes, j)
    ensures Bytes([], 0) == 0 && (i < |sizes| ==> Bytes([sizes[i]], 0) == sizes[i])
    decreases j - i
  {
    if i < j {
      BytesAddUp(sizes, i + 1, j);
      BytesShift(sizes[i..j], sizes[i + 1..j], 0);
    }
  }

  lemma {:induction false} BytesShift(a: seq<nat>, b: seq<nat>, k: nat)
    requires |a| == |b| + 1 && k <= |b| && forall i :: 0 <= i < |b| ==> a[i + 1] == b[i]
    ensures Bytes(a, k + 1) == Bytes(b, k)
    decreases |b| - k
  {
    if k < |b| {
      BytesShift(a, b, k + 1);
    }
  }

  /** Where the entry cap alone cuts. */
  function CountCut(total: nat, l: Limits): nat { if total > l.threshold then Max(0, total - l.tail) else 0 }

  /** A tail the byte cap lets stand: within budget, or no longer than the floor. */
  predicate Fits(sizes: seq<nat>, i: nat, l: Limits)
    requires i <= |sizes|
  {
    l.maxBytes <= 0 || Bytes(sizes, i) <= l.maxBytes || |sizes| - i <= l.minTail
  }

  lemma {:induction false} ShorterTailsFit(sizes: seq<nat>, i: nat, j: nat, l: Limits)
    requires i <= j <= |sizes| && Fits(sizes, i, l)
    ensures Fits(sizes, j, l) && Bytes(sizes, j) <= Bytes(sizes, i)
    decreases j - i
  {
    if i < j {
      ShorterTailsFit(sizes, i + 1, j, l);
    }
  }

  /** Where the tail starts, said without the walk: of the starts from the entry cap's cut on, the
      first whose tail fits. */
  ghost predicate IsTailFrom(sizes: seq<nat>, l: Limits, from: nat)
  {
    && CountCut(|sizes|, l) <= from <= |sizes| && Fits(sizes, from, l)
    && forall i :: CountCut(|sizes|, l) <= i < from ==> !Fits(sizes, i, l)
  }

  /** The longest tail after the entry cap's cut that fits. */
  method TailWindow(sizes: seq<nat>, l: Limits) returns (from: nat, truncated: bool)
    requires l.tail > 0
    ensures IsTailFrom(sizes, l, from) && (truncated <==> from > 0)
  {
    var total := |sizes|;
    if total == 0 {
      return 0, false;
    }
    var cut: int := 0;
    if total > l.threshold {
      cut := total - l.tail;
      if cut < 0 {
        cut := 0;
      }
    }
    if l.maxBytes > 0 {
      var byteFrom := CutByBytes(sizes, l);
      if byteFrom > cut {
        cut := byteFrom;
      } else {
        ShorterTailsFit(sizes, byteFrom, cut, l);
      }
    }
    from, truncated := cut, cut > 0;
  }

  /** The walk from the newest entry back. */
  method CutByBytes(sizes: seq<nat>, l: Limits) returns (byteFrom: nat)
    requires l.maxBytes > 0 && sizes != []
    ensures byteFrom <= |sizes| && Fits(sizes, byteFrom, l)
    ensures forall i :: 0 <= i < byteFrom ==> !Fits(sizes, i, l)
  {
    var total, acc := |sizes|, 0;
    byteFrom := total;
    var i := total;
    while i > 0
      invariant i <= total && byteFrom == i && acc == Bytes(sizes, i) && Fits(sizes, i, l)
    {
      i := i - 1;
      var mustKeep := total - i <= l.minTail;
      if !mustKeep && acc + sizes[i] > l.maxBytes {
        forall k | 0 <= k <= i
          ensures !Fits(sizes, k, l)
        {
          if Fits(sizes, k, l) {
            ShorterTailsFit(sizes, k, i, l);
          }
        }
        return;
      }
      acc := acc + sizes[i];
      byteFrom := i;
    }
  }

  /** When the byte cap chose the cut, one more entry would have gone over the budget. */
  lemma {:induction false} ByteCutIsTight(sizes: seq<nat>, l: Limits, from: nat)
    requires IsTailFrom(sizes, l, from) && from > CountCut(|sizes|, l)
    ensures Bytes(sizes, from - 1) > l.maxBytes > 0 && |sizes| - from >= l.minTail
  {
    assert !Fits(sizes, from - 1, l);
  }

  /** The tail keeps the floor, or everything, exactly when the entry cap does not cut into it. */
  lemma {:induction false} FloorIsKeptIff(sizes: seq<nat>, l: Limits, from: nat)
    requires IsTailFrom(sizes, l, from)
    ensures |sizes| - from >= Min(|sizes|, l.minTail) <==>
              |sizes| <= l.threshold || l.tail >= Min(|sizes|, l.minTail)
  {
    if from > CountCut(|sizes|, l) {
      ByteCutIsTight(sizes, l, from);
    }
  }

  // --- Windows ------------------------------------------------------------------------

  datatype Answer<T> = Answer(entries: seq<T>, total: nat, from: nat) | OutOfBounds

  /** 64-bit addition of two non-negative numbers that fit. */
  function WrappedSum(a: nat, b: nat): int { if a + b > MAX_INT then a + b - MAX_UINT - 1 else a + b }

  /** handleApiSession: both parameters present and non-negative numbers select a window, else the
      tail when asked for, else everything. A sum that wraps gives bounds no slice can have. */
  function Served<T>(entries: seq<T>, from: string, count: string, paginate: bool, tailFrom: nat): Answer<T>
    requires tailFrom <= |entries|
  {
    var f, c := Atoi(from), Atoi(count);
    if from != "" && count != "" then
      if f.ok && c.ok && f.value >= 0 && c.value >= 0 then
        var start := Min(f.value, |entries|);
        var end := Min(WrappedSum(start, c.value), |entries|);
        if end < start then OutOfBounds else Answer(entries[start..end], |entries|, start)
      else Answer(entries, |entries|, 0)
    else if paginate then Answer(entries[tailFrom..], |entries|, tailFrom)
    else Answer(entries, |entries|, 0)
  }

  /** A request with one of the parameters missing gets the tail if it asks for it, else everything; with both there
      and one no number, or negative, everything. */
  lemma OtherRequests<T>(entries: seq<T>, from: string, count: string, paginate: bool, tailFrom: nat)
    requires tailFrom <= |entries|
    ensures var served := Served(entries, from, count, paginate, tailFrom);
            && ((from == "" || count == "") && paginate ==> served == Answer(entries[tailFrom..], |entries|, tailFrom))
            && ((from == "" || count == "") && !paginate ==> served == Answer(entries, |entries|, 0))
            && (from != "" && count != "" && (!Natural(from) || !Natural(count)) ==> served == Answer(entries, |entries|, 0))
  {
  }

  predicate Natural(s: string) { Atoi(s).ok && Atoi(s).value >= 0 }

  function Window<T>(entries: seq<T>, from: nat, count: nat): seq<T>
  {
    var start := Min(from, |entries|);
    entries[start..Min(start + count, |entries|)]
  }

  lemma DecimalIsText(n: nat)
    ensures Decimal(n) != ""
  {
    DecimalRoundTrip(n);
  }

  /** A request for `c` entries from `f` is answered with that window exactly when the sum does not
      wrap; a number that does not fit is as good as none. */
  lemma WindowIsServedIff<T>(entries: seq<T>, f: nat, c: nat, paginate: bool, tailFrom: nat)
    requires tailFrom <= |entries| <= MAX_INT
    ensures var served := Served(entries, Decimal(f), Decimal(c), paginate, tailFrom);
            && (f <= MAX_INT && c <= MAX_INT ==>
                  (served == Answer(Window(entries, f, c), |entries|, Min(f, |entries|)) <==> Min(f, |entries|) + c <= MAX_INT))
            && (f <= MAX_INT && c <= MAX_INT && Min(f, |entries|) + c > MAX_INT ==> served == OutOfBounds)
            && (f > MAX_INT || c > MAX_INT ==> served == Answer(entries, |entries|, 0))
  {
    DecimalIsText(f);
    DecimalIsText(c);
    AtoiOfDecimal(f);
    AtoiOfDecimal(c);
  }

  /** Requests one below the other: each window ends where the one before it started. */
  datatype Earlier = Tail | Load(after: Earlier, from: nat)

  function StartOf(e: Earlier, tailFrom: nat): nat { if e.Tail? then tailFrom else e.from }

  predicate Descends(e: Earlier, tailFrom: nat) { e.Load? ==> e.from <= StartOf(e.after, tailFrom) && Descends(e.after, tailFrom) }

  /** What the reader has after asking for the tail and then for earlier windows. */
  function Collected<T>(entries: seq<T>, tailFrom: nat, e: Earlier): seq<T>
    requires tailFrom <= |entries| && Descends(e, tailFrom)
  {
    if e.Tail? then entries[tailFrom..]
    else Window(entries, e.from, StartOf(e.after, tailFrom) - e.from) + Collected(entries, tailFrom, e.after)
  }

  /** Windows that tile what lies before the tail give, with the tail, exactly the entries from the
      first window on: nothing missing, nothing twice. */
  lemma {:induction false} WindowsTile<T>(entries: seq<T>, tailFrom: nat, e: Earlier)
    requires tailFrom <= |entries| && Descends(e, tailFrom)
    ensures StartOf(e, tailFrom) <= |entries|
    ensures Collected(entries, tailFrom, e) == entries[StartOf(e, tailFrom)..]
  {
    if e.Load? {
      WindowsTile(entries, tailFrom, e.after);
      var mid := StartOf(e.after, tailFrom);
      assert entries[e.from..mid] + entries[mid..] == entries[e.from..];
    }
  }

  lemma TheWholeLogIsReached<T>(entries: seq<T>, tailFrom: nat, e: Earlier)
    requires tailFrom <= |entries| && Descends(e, tailFrom)
    ensures Collected(entries, tailFrom, e) == entries <==> StartOf(e, tailFrom) == 0 || entries == []
  {
    WindowsTile(entries, tailFrom, e);
    assert |entries[StartOf(e, tailFrom)..]| == |entries| - StartOf(e, tailFrom);
  }

  /** Each of the requests that tile the list is answered with its window. */
  lemma EveryTileIsServed<T>(entries: seq<T>, tailFrom: nat, e: Earlier)
    requires tailFrom <= |entries| <= MAX_INT && Descends(e, tailFrom) && e.Load?
    ensures var count := StartOf(e.after, tailFrom) - e.from;
            Served(entries, Decimal(e.from), Decimal(count), true, tailFrom) ==
              Answer(Window(entries, e.from, count), |entries|, e.from)
  {
    StartsInside(tailFrom, e.after);
    var count := StartOf(e.after, tailFrom) - e.from;
    assert Min(e.from, |entries|) == e.from && e.from + count <= MAX_INT;
    WindowIsServedIff(entries, e.from, count, true, tailFrom);
  }

  lemma {:induction false} StartsInside(tailFrom: nat, e: Earlier)
    requires Descends(e, tailFrom)
    ensures StartOf(e, tailFrom) <= tailFrom
  {
    if e.Load? {
      StartsInside(tailFrom, e.after);
    }
  }

  // --- Pages of summaries ------------------------------------------------------------------

  datatype Page<T> = Page(items: seq<T>) | NoPage

  /** paginateSummaries. */
  function Paginated<T>(items: seq<T>, offset: string, limit: string): Page<T>
  {
    var l, o := Atoi(limit), Atoi(offset);
    if !l.ok || l.value <= 0 then Page(items)
    else
      var start := if !o.ok || o.value < 0 then 0 else o.value;
      if start >= |items| then Page([])
      else
        var end := Min(WrappedSum(start, l.value), |items|);
        if end < start then NoPage else Page(items[start..end])
  }

  /** The first `n` pages one after the other. */
  function Pages<T>(items: seq<T>, limit: nat, n: nat): seq<T>
  {
    if n == 0 then [] else Pages(items, limit, n - 1) + Window(items, (n - 1) * limit, limit)
  }

  /** Pages of one size are consecutive windows of the list and run through it without gap or overlap. */
  lemma {:induction false} PagesRunThrough<T>(items: seq<T>, limit: nat, n: nat)
    ensures Pages(items, limit, n) == items[..Min(n * limit, |items|)]
  {
    if n > 0 {
      PagesRunThrough(items, limit, n - 1);
      var before := (n - 1) * limit;
      assert n * limit == before + limit;
    }
  }

  /** A page is the window at its offset exactly when it starts past the list or its end does not wrap. */
  lemma PageIsAWindow<T>(items: seq<T>, offset: nat, limit: nat)
    requires |items| <= MAX_INT && offset <= MAX_INT && 0 < limit <= MAX_INT
    ensures Paginated(items, Decimal(offset), Decimal(limit)) == Page(Window(items, offset, limit)) <==>
              offset >= |items| || offset + limit <= MAX_INT
  {
    AtoiOfDecimal(offset);
    AtoiOfDecimal(limit);
  }

  /** Without a positive limit everything is one page; an offset that is no number, or negative, is none. */
  lemma OtherPages<T>(items: seq<T>, offset: string, limit: string)
    ensures !Atoi(limit).ok || Atoi(limit).value <= 0 ==> Paginated(items, offset, limit) == Page(items)
    ensures !Natural(offset) ==> Paginated(items, offset, limit) == Paginated(items, Decimal(0), limit)
  {
    AtoiOfDecimal(0);
  }
}
