/** Text operations the Go and JavaScript sources share. White space is the Unicode white space on
    which strings.TrimSpace and String.trim agree. */
module Text {
  import opened Prelude

  predicate IsSpace(c: char)
  {
    || c == ' ' || '\t' <= c <= '\r' || c == '\U{A0}' || c == '\U{1680}' || '\U{2000}' <= c <= '\U{200A}'
    || c == '\U{2028}' || c == '\U{2029}' || c == '\U{202F}' || c == '\U{205F}' || c == '\U{3000}'
  }

  /** How much of the first `n` characters is left when trailing white space goes. */
  function TrimmedLength(s: string, n: nat): (r: nat)
    requires n <= |s|
    ensures r <= n && (r > 0 ==> !IsSpace(s[r - 1]))
    ensures forall i :: r <= i < n ==> IsSpace(s[i])
  {
    if n > 0 && IsSpace(s[n - 1]) then TrimmedLength(s, n - 1) else n
  }

  function TrimEnd(s: string): string { s[..TrimmedLength(s, |s|)] }

  /** Where the first character that is not white space stands, counting from `i`. */
  function FirstNonSpace(s: string, i: nat): (r: nat)
    requires i <= |s|
    ensures i <= r <= |s| && (r < |s| ==> !IsSpace(s[r]))
    ensures forall j :: i <= j < r ==> IsSpace(s[j])
    decreases |s| - i
  {
    if i < |s| && IsSpace(s[i]) then FirstNonSpace(s, i + 1) else i
  }

  function Trim(s: string): string { TrimEnd(s[FirstNonSpace(s, 0)..]) }

  /** Trimming the end is a no-op exactly on strings that do not end in white space. */
  lemma TrimEndFixpoint(s: string)
    ensures TrimEnd(s) == s <==> (s == "" || !IsSpace(s[|s| - 1]))
    ensures |TrimEnd(s)| == |s| <==> TrimEnd(s) == s
  {
  }

  /** What trimming leaves neither begins nor ends with white space, so trimming again is idle. */
  lemma TrimTwice(s: string)
    ensures Trim(Trim(s)) == Trim(s)
  {
    var tail := s[FirstNonSpace(s, 0)..];
    var t := TrimEnd(tail);
    TrimEndFixpoint(t);
    if t != "" {
      assert t[0] == tail[0];
    }
    assert FirstNonSpace(t, 0) == 0 && t[0..] == t;
  }

  predicate OccursAt(s: string, part: string, i: nat) { i + |part| <= |s| && s[i..i + |part|] == part }

  /** The first occurrence at or after `i`. */
  function IndexFrom(s: string, part: string, i: nat): (r: Option<nat>)
    requires i <= |s|
    ensures r.Some? ==> r.value >= i && OccursAt(s, part, r.value)
    ensures forall j :: i <= j < (if r.Some? then r.value else |s| + 1) ==> !OccursAt(s, part, j)
    decreases |s| - i
  {
    if OccursAt(s, part, i) then Some(i)
    else if i == |s| then None
    else IndexFrom(s, part, i + 1)
  }

  lemma {:induction false} OccursIff(s: string, part: string, i: nat)
    ensures OccursAt(s, part, i) <==> exists before, after :: s == before + part + after && |before| == i
  {
    if OccursAt(s, part, i) {
      assert s == s[..i] + part + s[i + |part|..];
    }
  }

  predicate NoSpace(s: string) { forall i :: 0 <= i < |s| ==> !IsSpace(s[i]) }

  lemma TrimIsIdle(s: string)
    requires NoSpace(s)
    ensures Trim(s) == s
  {
    assert s[0..] == s;
    TrimEndFixpoint(s);
  }

  /** Text that neither begins nor ends with white space is left alone. */
  lemma {:induction false} TrimKeepsSolidEnds(s: string)
    requires s != "" && !IsSpace(s[0]) && !IsSpace(s[|s| - 1])
    ensures Trim(s) == s
  {
    assert s[0..] == s;
    TrimEndFixpoint(s);
  }

  // --- Splitting and joining -----------------------------------------------------

  /** Splitting in progress: the finished pieces and the one being read. */
  datatype Pieces = Pieces(done: seq<string>, last: string)
  {
    function All(): (r: seq<string>)
      ensures |r| > 0
    {
      done + [last]
    }

    function Read(c: char, sep: char): Pieces
    {
      if c == sep then Pieces(done + [last], "") else Pieces(done, last + [c])
    }
  }

  /** The first `n` characters cut at separators. */
  function Cut(s: string, n: nat, sep: char): Pieces
    requires n <= |s|
  {
    if n == 0 then Pieces([], "") else Cut(s, n - 1, sep).Read(s[n - 1], sep)
  }

  /** The pieces between separators; always at least one. */
  function Split(s: string, sep: char): (r: seq<string>)
    ensures |r| > 0
  {
    Cut(s, |s|, sep).All()
  }

  /** The first `n` parts with the separator between them. */
  function Join(parts: seq<string>, n: nat, sep: char): string
    requires n <= |parts|
  {
    if n == 0 then ""
    else if n == 1 then parts[0]
    else Join(parts, n - 1, sep) + [sep] + parts[n - 1]
  }

  lemma {:induction false} JoinAgrees(a: seq<string>, b: seq<string>, n: nat, sep: char)
    requires n <= |a| && n <= |b| && forall i :: 0 <= i < n ==> a[i] == b[i]
    ensures Join(a, n, sep) == Join(b, n, sep)
  {
    if n > 1 {
      JoinAgrees(a, b, n - 1, sep);
    }
  }

  lemma JoinSnoc(r: seq<string>, part: string, sep: char)
    requires |r| > 0
    ensures Join(r + [part], |r| + 1, sep) == Join(r, |r|, sep) + [sep] + part
  {
    JoinAgrees(r + [part], r, |r|, sep);
  }

  lemma {:induction false} JoinCut(s: string, n: nat, sep: char)
    requires n <= |s|
    ensures var r := Cut(s, n, sep).All();
            Join(r, |r|, sep) == s[..n]
  {
    if n > 0 {
      JoinCut(s, n - 1, sep);
      JoinRead(Cut(s, n - 1, sep), s[n - 1], sep);
      assert s[..n] == s[..n - 1] + [s[n - 1]];
    }
  }

  lemma JoinRead(p: Pieces, c: char, sep: char)
    ensures var r, q := p.Read(c, sep).All(), p.All();
            Join(r, |r|, sep) == Join(q, |q|, sep) + [c]
  {
    if c == sep {
      JoinSnoc(p.All(), "", sep);
      assert Join(p.All(), |p.All()|, sep) + [sep] + "" == Join(p.All(), |p.All()|, sep) + [c];
    } else if p.done != [] {
      JoinSnoc(p.done, p.last, sep);
      JoinSnoc(p.done, p.last + [c], sep);
      var before := Join(p.done, |p.done|, sep) + [sep];
      assert before + (p.last + [c]) == before + p.last + [c];
    }
  }

  /** Joining undoes splitting. */
  lemma {:induction false} JoinSplit(s: string, sep: char)
    ensures var r := Split(s, sep);
            Join(r, |r|, sep) == s
  {
    JoinCut(s, |s|, sep);
    assert s[..|s|] == s;
  }

  predicate Solid(s: string, sep: char) { forall i :: 0 <= i < |s| ==> s[i] != sep }

  lemma {:induction false} CutAgrees(a: string, b: string, n: nat, sep: char)
    requires n <= |a| && n <= |b| && forall i :: 0 <= i < n ==> a[i] == b[i]
    ensures Cut(a, n, sep) == Cut(b, n, sep)
  {
    if n > 0 {
      CutAgrees(a, b, n - 1, sep);
    }
  }

  /** After pieces already finished, cutting goes on as from the start. */
  lemma {:induction false} CutAfter(s: string, k: nat, before: seq<string>, b: string, n: nat, sep: char)
    requires n <= |b| && k + |b| <= |s| && (forall i {:trigger b[i]} :: 0 <= i < |b| ==> s[k + i] == b[i])
    requires Cut(s, k, sep) == Pieces(before, "")
    ensures Cut(s, k + n, sep) == Pieces(before + Cut(b, n, sep).done, Cut(b, n, sep).last)
  {
    if n == 0 {
      assert before + [] == before;
    } else {
      CutAfter(s, k, before, b, n - 1, sep);
      var q, c := Cut(b, n - 1, sep), b[n - 1];
      assert s[k + (n - 1)] == c;
      assert before + (q.done + [q.last]) == before + q.done + [q.last];
    }
  }

  /** A separator ends a piece: what follows splits on its own. */
  lemma SplitAppend(s: string, a: string, b: string, sep: char)
    requires s == a + [sep] + b
    ensures Split(s, sep) == Split(a, sep) + Split(b, sep)
  {
    var k := |a| + 1;
    CutAgrees(s, a, |a|, sep);
    assert s[|a|] == sep;
    var p, q := Cut(a, |a|, sep), Cut(b, |b|, sep);
    assert Cut(s, k, sep) == p.Read(sep, sep);
    CutAfter(s, k, p.All(), b, |b|, sep);
    assert p.All() + q.done + [q.last] == p.All() + q.All();
  }

  lemma {:induction false} CutSolid(s: string, n: nat, sep: char)
    requires n <= |s| && Solid(s, sep)
    ensures Cut(s, n, sep) == Pieces([], s[..n])
  {
    if n > 0 {
      CutSolid(s, n - 1, sep);
      assert s[..n] == s[..n - 1] + [s[n - 1]];
    }
  }

  lemma SplitSolid(s: string, sep: char)
    requires Solid(s, sep)
    ensures Split(s, sep) == [s]
  {
    CutSolid(s, |s|, sep);
    assert s[..|s|] == s;
  }

  /** Splitting undoes joining parts that do not hold the separator. */
  lemma {:induction false} SplitJoin(parts: seq<string>, n: nat, sep: char)
    requires 0 < n <= |parts| && forall i :: 0 <= i < n ==> Solid(parts[i], sep)
    ensures Split(Join(parts, n, sep), sep) == parts[..n]
  {
    SplitSolid(parts[n - 1], sep);
    if n == 1 {
      assert parts[..1] == [parts[0]];
    } else {
      SplitJoin(parts, n - 1, sep);
      SplitAppend(Join(parts, n, sep), Join(parts, n - 1, sep), parts[n - 1], sep);
      assert parts[..n] == parts[..n - 1] + [parts[n - 1]];
    }
  }

  // --- Decimal numerals ------------------------------------------------------------

  predicate IsDigit(c: char) { '0' <= c <= '9' }

  predicate AllDigits(s: string) { forall i :: 0 <= i < |s| ==> IsDigit(s[i]) }

  function DigitValue(c: char): (r: nat)
    requires IsDigit(c)
    ensures r <= 9
  {
    c as int - '0' as int
  }

  /** The number the first `n` digits name. */
  function ValueOf(s: string, n: nat): nat
    requires n <= |s| && AllDigits(s)
  {
    if n == 0 then 0 else ValueOf(s, n - 1) * 10 + DigitValue(s[n - 1])
  }

  function DigitFor(d: nat): (c: char)
    requires d <= 9
    ensures IsDigit(c) && DigitValue(c) == d
  {
    ('0' as int + d) as char
  }

  function Decimal(n: nat): (s: string)
    ensures |s| > 0
  {
    if n < 10 then [DigitFor(n)] else Decimal(n / 10) + [DigitFor(n % 10)]
  }

  lemma {:induction false} ValueAgrees(a: string, b: string, n: nat)
    requires n <= |a| && n <= |b| && AllDigits(a) && AllDigits(b) && forall i :: 0 <= i < n ==> a[i] == b[i]
    ensures ValueOf(a, n) == ValueOf(b, n)
  {
    if n > 0 {
      ValueAgrees(a, b, n - 1);
    }
  }

  /** Reading a printed number gives it back. */
  lemma {:induction false} DecimalRoundTrip(n: nat)
    ensures var s := Decimal(n);
            AllDigits(s) && ValueOf(s, |s|) == n
  {
    var s := Decimal(n);
    if n < 10 {
      assert ValueOf(s, 1) == ValueOf(s, 0) * 10 + DigitValue(s[0]);
    } else {
      DecimalRoundTrip(n / 10);
      ValueAgrees(s, Decimal(n / 10), |Decimal(n / 10)|);
    }
  }
}
