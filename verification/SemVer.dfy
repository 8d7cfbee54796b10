/**
 Version precedence for update checks (internal/updater/updater.go).
 */
module SemVer {
  import opened Prelude
  import opened Text
  import opened Numerals

  // --- Identifiers ------------------------------------------------------------------

  /** How an identifier is compared: as a number when it reads as one, else as text. */
  datatype Key = Num(n: int) | Word(s: string)

  function KeyOf(id: string): Key
  {
    var a := Atoi(id);
    if a.ok then Num(a.value) else Word(id)
  }

  function Sign(a: int, b: int): int { if a < b then -1 else if a > b then 1 else 0 }

  /** strings.Compare from position `i` on. */
  function CompareText(a: string, b: string, i: nat): int
    requires i <= |a| && i <= |b|
    decreases |a| - i
  {
    if i == |a| || i == |b| then Sign(|a|, |b|)
    else if a[i] != b[i] then Sign(a[i] as int, b[i] as int)
    else CompareText(a, b, i + 1)
  }

  function CompareKey(a: Key, b: Key): int
  {
    match (a, b)
    case (Num(m), Num(n)) => Sign(m, n)
    case (Num(_), Word(_)) => -1
    case (Word(_), Num(_)) => 1
    case (Word(s), Word(t)) => CompareText(s, t, 0)
  }

  /** Identifier lists from position `i` on: the first difference decides, else the length. */
  function CompareKeys(a: seq<Key>, b: seq<Key>, i: nat): int
    requires i <= |a| && i <= |b|
    decreases |a| - i
  {
    if i == |a| || i == |b| then Sign(|a|, |b|)
    else
      var c := CompareKey(a[i], b[i]);
      if c != 0 then c else CompareKeys(a, b, i + 1)
  }

  function CompareIdentifier(a: string, b: string): (r: int)
    ensures r == CompareKey(KeyOf(a), KeyOf(b))
  {
    var na, nb := Atoi(a), Atoi(b);
    if na.ok && nb.ok then
      if na.value < nb.value then -1 else if na.value > nb.value then 1 else 0
    else if na.ok then -1
    else if nb.ok then 1
    else CompareText(a, b, 0)
  }

  // --- Versions ------------------------------------------------------------------------

  /** What a version string is compared by: three numbers, and the identifiers of a prerelease. */
  datatype Rank = Rank(core: seq<int>, pre: Option<seq<Key>>)

  function IndexOf(s: string, c: char, i: nat): (r: nat)
    requires i <= |s|
    ensures i <= r <= |s| && (r < |s| ==> s[r] == c)
    ensures forall k :: i <= k < r ==> s[k] != c
    decreases |s| - i
  {
    if i < |s| && s[i] != c then IndexOf(s, c, i + 1) else i
  }

  function Before(s: string, c: char): string { s[..IndexOf(s, c, 0)] }

  function After(s: string, c: char): string
  {
    var i := IndexOf(s, c, 0);
    if i < |s| then s[i + 1..] else ""
  }

  /** strings.SplitN(core, ".", 3): the last part keeps any further dots. */
  function CoreParts(core: string): (r: seq<string>)
    ensures 0 < |r| <= 3
  {
    var rest := After(core, '.');
    if IndexOf(core, '.', 0) == |core| then [core]
    else if IndexOf(rest, '.', 0) == |rest| then [Before(core, '.'), rest]
    else [Before(core, '.'), Before(rest, '.'), After(rest, '.')]
  }

  function PartValue(parts: seq<string>, i: nat): int
  {
    if i < |parts| then Atoi(Trim(parts[i])).value else 0
  }

  function CoreOf(core: string): (r: seq<int>)
    ensures |r| == 3
  {
    var parts := CoreParts(core);
    [PartValue(parts, 0), PartValue(parts, 1), PartValue(parts, 2)]
  }

  function Bare(v: string): string
  {
    var t := Trim(v);
    if t != "" && t[0] == 'v' then t[1..] else t
  }

  function CoreText(v: string): string { Before(Before(Bare(v), '-'), '+') }

  function PreText(v: string): string { Before(After(Bare(v), '-'), '+') }

  function KeysOf(ids: seq<string>): (r: seq<Key>)
    ensures |r| == |ids|
  {
    seq(|ids|, i requires 0 <= i < |ids| => KeyOf(ids[i]))
  }

  function PreOf(pre: string): Option<seq<Key>>
  {
    if pre == "" then None else Some(KeysOf(Split(pre, '.')))
  }

  function RankOf(v: string): Rank { Rank(CoreOf(CoreText(v)), PreOf(PreText(v))) }

  function CompareCore(a: seq<int>, b: seq<int>, i: nat): int
    requires i <= |a| == |b|
    decreases |a| - i
  {
    if i == |a| then 0 else if a[i] != b[i] then Sign(a[i], b[i]) else CompareCore(a, b, i + 1)
  }

  /** No prerelease outranks a prerelease. */
  function ComparePre(a: Option<seq<Key>>, b: Option<seq<Key>>): int
  {
    match (a, b)
    case (None, None) => 0
    case (None, Some(_)) => 1
    case (Some(_), None) => -1
    case (Some(x), Some(y)) => CompareKeys(x, y, 0)
  }

  function CompareRank(a: Rank, b: Rank): int
    requires |a.core| == |b.core|
  {
    var c := CompareCore(a.core, b.core, 0);
    if c != 0 then c else ComparePre(a.pre, b.pre)
  }

  /** The text up to the first `c`, and what follows it. */
  method CutAt(s: string, c: char) returns (before: string, after: string)
    ensures before == Before(s, c) && after == After(s, c)
  {
    before, after := s, "";
    var i := IndexOf(s, c, 0);
    if i < |s| {
      before, after := s[..i], s[i + 1..];
    } else {
      assert s[..i] == s;
    }
  }

  method ReadPart(parts: seq<string>, i: nat) returns (value: int)
    requires i < |parts|
    ensures value == PartValue(parts, i)
  {
    value := Atoi(Trim(parts[i])).value;
  }

  /** Fills three numbers that start as zero with those of the parts. */
  method FillCore(parts: seq<string>, ghost expected: seq<int>) returns (core: seq<int>)
    requires |parts| <= 3 == |expected|
    requires forall i :: 0 <= i < 3 ==> expected[i] == if i < |parts| then PartValue(parts, i) else 0
    ensures core == expected
  {
    var nums := new int[3](_ => 0);
    var n := 0;
    while n < |parts|
      invariant n <= |parts|
      invariant forall i :: 0 <= i < 3 ==> nums[i] == if i < n then expected[i] else 0
    {
      var value := ReadPart(parts, n);
      assert value == expected[n];
      nums[n] := value;
      n := n + 1;
    }
    core := nums[..];
  }

  method ReadCore(c: string) returns (core: seq<int>)
    ensures core == CoreOf(c)
  {
    core := FillCore(CoreParts(c), CoreOf(c));
  }

  method SplitVersion(v: string) returns (core: seq<int>, pre: string)
    ensures core == CoreOf(CoreText(v)) && pre == PreText(v)
  {
    var w := Trim(v);
    if w != "" && w[0] == 'v' {
      w := w[1..];
    }
    var c, build;
    c, pre := CutAt(w, '-');
    c, build := CutAt(c, '+');
    pre, build := CutAt(pre, '+');
    core := ReadCore(c);
  }

  method ComparePrerelease(a: string, b: string) returns (r: int)
    ensures r == ComparePre(PreOf(a), PreOf(b))
  {
    if a == b {
      if a != "" {
        KeysReflexive(KeysOf(Split(a, '.')), 0);
      }
      return 0;
    }
    if a == "" {
      return 1;
    }
    if b == "" {
      return -1;
    }
    var pa, pb := Split(a, '.'), Split(b, '.');
    var i := 0;
    while i < |pa| && i < |pb|
      invariant i <= |pa| && i <= |pb|
      invariant CompareKeys(KeysOf(pa), KeysOf(pb), i) == CompareKeys(KeysOf(pa), KeysOf(pb), 0)
    {
      var c := CompareIdentifier(pa[i], pb[i]);
      if c != 0 {
        return c;
      }
      i := i + 1;
    }
    r := if |pa| < |pb| then -1 else if |pa| > |pb| then 1 else 0;
  }

  method CompareSplit(coreA: seq<int>, preA: string, coreB: seq<int>, preB: string) returns (r: int)
    requires |coreA| == |coreB|
    ensures r == CompareRank(Rank(coreA, PreOf(preA)), Rank(coreB, PreOf(preB)))
  {
    for i := 0 to |coreA|
      invariant CompareCore(coreA, coreB, i) == CompareCore(coreA, coreB, 0)
    {
      if coreA[i] != coreB[i] {
        if coreA[i] < coreB[i] {
          return -1;
        }
        return 1;
      }
    }
    r := ComparePrerelease(preA, preB);
  }

  method CompareSemver(a: string, b: string) returns (r: int)
    ensures r == CompareRank(RankOf(a), RankOf(b))
  {
    var coreA, preA := SplitVersion(a);
    var coreB, preB := SplitVersion(b);
    r := CompareSplit(coreA, preA, coreB, preB);
  }

  // --- A total preorder on all strings ----------------------------------------------------

  /** White space around a version does not matter, nor does a "v" before it. */
  lemma {:induction false} SurroundingsDoNotMatter(v: string)
    ensures RankOf(Trim(v)) == RankOf(v)
    ensures Trim(v) == v && (v == "" || v[0] != 'v') ==> RankOf("v" + v) == RankOf(v)
  {
    TrimTwice(v);
    if Trim(v) == v && v != "" {
      var tail := v[FirstNonSpace(v, 0)..];
      assert TrimEnd(tail) == v && !IsSpace(v[|v| - 1]);
      TrimKeepsSolidEnds("v" + v);
      assert ("v" + v)[1..] == v;
    }
  }

  lemma {:induction false} TextAntisymmetric(a: string, b: string, i: nat)
    requires i <= |a| && i <= |b|
    ensures CompareText(a, b, i) == -CompareText(b, a, i)
    decreases |a| - i
  {
    if i < |a| && i < |b| {
      TextAntisymmetric(a, b, i + 1);
    }
  }

  lemma {:induction false} TextTransitive(a: string, b: string, c: string, i: nat)
    requires i <= |a| && i <= |b| && i <= |c|
    requires CompareText(a, b, i) <= 0 && CompareText(b, c, i) <= 0
    ensures CompareText(a, c, i) <= 0
    ensures CompareText(a, b, i) < 0 || CompareText(b, c, i) < 0 ==> CompareText(a, c, i) < 0
    decreases |a| - i
  {
    if i < |a| && i < |b| && i < |c| && a[i] == b[i] == c[i] {
      TextTransitive(a, b, c, i + 1);
    }
  }

  lemma KeyAntisymmetric(a: Key, b: Key)
    ensures CompareKey(a, b) == -CompareKey(b, a)
  {
    if a.Word? && b.Word? {
      TextAntisymmetric(a.s, b.s, 0);
    }
  }

  lemma KeyTransitive(a: Key, b: Key, c: Key)
    requires CompareKey(a, b) <= 0 && CompareKey(b, c) <= 0
    ensures CompareKey(a, c) <= 0
    ensures CompareKey(a, b) < 0 || CompareKey(b, c) < 0 ==> CompareKey(a, c) < 0
  {
    if a.Word? && b.Word? && c.Word? {
      TextTransitive(a.s, b.s, c.s, 0);
    }
  }

  lemma {:induction false} KeysAntisymmetric(a: seq<Key>, b: seq<Key>, i: nat)
    requires i <= |a| && i <= |b|
    ensures CompareKeys(a, b, i) == -CompareKeys(b, a, i)
    decreases |a| - i
  {
    if i < |a| && i < |b| {
      KeyAntisymmetric(a[i], b[i]);
      KeysAntisymmetric(a, b, i + 1);
    }
  }

  lemma KeysReflexive(a: seq<Key>, i: nat)
    requires i <= |a|
    ensures CompareKeys(a, a, i) == 0
  {
    KeysAntisymmetric(a, a, i);
  }

  lemma {:induction false} KeysTransitive(a: seq<Key>, b: seq<Key>, c: seq<Key>, i: nat)
    requires i <= |a| && i <= |b| && i <= |c|
    requires CompareKeys(a, b, i) <= 0 && CompareKeys(b, c, i) <= 0
    ensures CompareKeys(a, c, i) <= 0
    decreases |a| - i
  {
    if i < |a| && i < |b| && i < |c| {
      KeyTransitive(a[i], b[i], c[i]);
      if CompareKey(a[i], b[i]) == 0 && CompareKey(b[i], c[i]) == 0 {
        KeysTransitive(a, b, c, i + 1);
      }
    }
  }

  lemma {:induction false} CoreOrder(a: seq<int>, b: seq<int>, c: seq<int>, i: nat)
    requires i <= |a| == |b| == |c|
    ensures CompareCore(a, b, i) == -CompareCore(b, a, i)
    ensures CompareCore(a, b, i) <= 0 && CompareCore(b, c, i) <= 0 ==> CompareCore(a, c, i) <= 0
    ensures CompareCore(a, b, i) <= 0 && CompareCore(b, c, i) <= 0 && CompareCore(a, c, i) == 0 ==>
              CompareCore(a, b, i) == 0 && CompareCore(b, c, i) == 0
    decreases |a| - i
  {
    if i < |a| {
      CoreOrder(a, b, c, i + 1);
    }
  }

  /** On any two strings the two directions of the comparison are opposite. */
  lemma {:induction false} ComparisonIsAntisymmetric(a: string, b: string)
    ensures CompareRank(RankOf(a), RankOf(b)) == -CompareRank(RankOf(b), RankOf(a))
  {
    var ra, rb := RankOf(a), RankOf(b);
    CoreOrder(ra.core, rb.core, ra.core, 0);
    PreAntisymmetric(ra.pre, rb.pre);
  }

  lemma PreAntisymmetric(a: Option<seq<Key>>, b: Option<seq<Key>>)
    ensures ComparePre(a, b) == -ComparePre(b, a)
  {
    if a.Some? && b.Some? {
      KeysAntisymmetric(a.value, b.value, 0);
    }
  }

  lemma PreTransitive(a: Option<seq<Key>>, b: Option<seq<Key>>, c: Option<seq<Key>>)
    requires ComparePre(a, b) <= 0 && ComparePre(b, c) <= 0
    ensures ComparePre(a, c) <= 0
  {
    if a.Some? && b.Some? && c.Some? {
      KeysTransitive(a.value, b.value, c.value, 0);
    }
  }

  /** On any three strings the comparison is transitive. */
  lemma {:induction false} ComparisonIsTransitive(a: string, b: string, c: string)
    requires CompareRank(RankOf(a), RankOf(b)) <= 0 && CompareRank(RankOf(b), RankOf(c)) <= 0
    ensures CompareRank(RankOf(a), RankOf(c)) <= 0
  {
    RankTransitive(RankOf(a), RankOf(b), RankOf(c));
  }

  lemma RankTransitive(a: Rank, b: Rank, c: Rank)
    requires |a.core| == |b.core| == |c.core|
    requires CompareRank(a, b) <= 0 && CompareRank(b, c) <= 0
    ensures CompareRank(a, c) <= 0
  {
    CoreOrder(a.core, b.core, c.core, 0);
    if CompareCore(a.core, c.core, 0) == 0 {
      PreTransitive(a.pre, b.pre, c.pre);
    }
  }

  // --- Section 11 of Semantic Versioning 2.0.0 ------------------------------------------------

  /** A dot-separated identifier of a prerelease. */
  datatype Identifier = Numeric(n: nat) | Alphanumeric(s: string)

  datatype Version = Version(major: nat, minor: nat, patch: nat, pre: seq<Identifier>, build: Option<string>)

  predicate IsLetter(c: char) { 'A' <= c <= 'Z' || 'a' <= c <= 'z' }

  predicate IdentifierChar(c: char) { IsDigit(c) || IsLetter(c) || c == '-' }

  predicate WellFormedIdentifier(id: Identifier)
  {
    id.Alphanumeric? ==>
      && id.s != "" && !AllDigits(id.s)
      && forall i :: 0 <= i < |id.s| ==> IdentifierChar(id.s[i])
  }

  predicate WellFormedBuild(b: string)
  {
    b != "" && forall i :: 0 <= i < |b| ==> IdentifierChar(b[i]) || b[i] == '.'
  }

  predicate WellFormed(v: Version)
  {
    && (forall i :: 0 <= i < |v.pre| ==> WellFormedIdentifier(v.pre[i]))
    && (v.build.Some? ==> WellFormedBuild(v.build.value))
  }

  predicate TextLower(a: string, b: string)
  {
    exists i :: 0 <= i <= |a| && FirstDifferenceLower(a, b, i)
  }

  predicate FirstDifferenceLower(a: string, b: string, i: nat)
    requires i <= |a|
  {
    && i <= |b| && a[..i] == b[..i]
    && if i == |a| then i < |b| else i < |b| && a[i] < b[i]
  }

  /** Numbers numerically, text in ASCII order, numbers below text. */
  predicate IdentifierLower(a: Identifier, b: Identifier)
  {
    if a.Numeric? then b.Alphanumeric? || a.n < b.n
    else b.Alphanumeric? && TextLower(a.s, b.s)
  }

  /** The first difference decides; when there is none the shorter list is lower. */
  predicate IdentifiersLowerAt(a: seq<Identifier>, b: seq<Identifier>, i: nat)
    requires i <= |a|
  {
    && i <= |b| && a[..i] == b[..i]
    && if i == |a| then i < |b| else i < |b| && IdentifierLower(a[i], b[i])
  }

  predicate IdentifiersLower(a: seq<Identifier>, b: seq<Identifier>)
  {
    exists i :: 0 <= i <= |a| && IdentifiersLowerAt(a, b, i)
  }

  predicate SameCore(v: Version, w: Version) { v.major == w.major && v.minor == w.minor && v.patch == w.patch }

  /** Precedence as the standard states it. Build metadata takes no part. */
  predicate Lower(v: Version, w: Version)
  {
    || v.major < w.major
    || (v.major == w.major && v.minor < w.minor)
    || (v.major == w.major && v.minor == w.minor && v.patch < w.patch)
    || (SameCore(v, w) && v.pre != [] && (w.pre == [] || IdentifiersLower(v.pre, w.pre)))
  }

  // --- Rendering -------------------------------------------------------------------------------

  function IdentifierText(id: Identifier): string { if id.Numeric? then Decimal(id.n) else id.s }

  function IdentifierTexts(ids: seq<Identifier>): (r: seq<string>)
    ensures |r| == |ids|
  {
    seq(|ids|, i requires 0 <= i < |ids| => IdentifierText(ids[i]))
  }

  function RenderCore(v: Version): string { Decimal(v.major) + "." + Decimal(v.minor) + "." + Decimal(v.patch) }

  function RenderPre(ids: seq<Identifier>): string { Join(IdentifierTexts(ids), |ids|, '.') }

  function RenderBuild(build: Option<string>): string { if build.None? then "" else "+" + build.value }

  function RenderBare(v: Version): string
  {
    RenderCore(v) + (if v.pre == [] then "" else "-" + RenderPre(v.pre)) + RenderBuild(v.build)
  }

  /** The version as text, with or without the leading `v`. */
  function Render(v: Version, prefixed: bool): string { if prefixed then "v" + RenderBare(v) else RenderBare(v) }

  // --- Reading numerals ---------------------------------------------------------------------------

  /** Text that the number reader takes for a number although the standard does not: a hyphen and
      digits that fit. */
  predicate LooksNegative(s: string)
  {
    |s| > 1 && s[0] == '-' && AllDigits(s[1..]) && ValueOf(s[1..], |s| - 1) <= MAX_INT + 1
  }

  lemma AtoiOfText(s: string)
    requires WellFormedIdentifier(Alphanumeric(s))
    ensures Atoi(s).ok <==> LooksNegative(s)
  {
    assert IdentifierChar(s[0]);
    if s[0] == '-' {
      var d := s[1..];
      if AllDigits(d) {
        ScanOfDigits(d, |d|);
      } else if ScanDigits(d, |d|).Magnitude? {
        ScannedAreDigits(d, |d|);
      }
    } else if ScanDigits(s, |s|).Magnitude? {
      ScannedAreDigits(s, |s|);
    }
  }

  /** What an identifier means, for comparing. */
  function Meant(id: Identifier): Key { if id.Numeric? then Num(id.n) else Word(id.s) }

  predicate ReadableIdentifier(id: Identifier) { if id.Numeric? then id.n <= MAX_INT else !LooksNegative(id.s) }

  lemma IdentifierIsRead(id: Identifier)
    requires WellFormedIdentifier(id)
    ensures KeyOf(IdentifierText(id)) == Meant(id) <==> ReadableIdentifier(id)
  {
    if id.Numeric? {
      AtoiOfDecimal(id.n);
    } else {
      AtoiOfText(id.s);
    }
  }

  // --- Reading a rendered version ---------------------------------------------------------------

  predicate VersionChar(c: char) { IdentifierChar(c) || c == '.' || c == '+' }

  predicate VersionText(s: string) { forall i :: 0 <= i < |s| ==> VersionChar(s[i]) }

  lemma VersionTextAppend(a: string, b: string)
    requires VersionText(a) && VersionText(b)
    ensures VersionText(a + b)
  {
  }

  lemma {:induction false} IndexOfIs(s: string, c: char, i: nat, r: nat)
    requires i <= r <= |s| && (r < |s| ==> s[r] == c) && forall k :: i <= k < r ==> s[k] != c
    ensures IndexOf(s, c, i) == r
    decreases r - i
  {
    if i < r {
      IndexOfIs(s, c, i + 1, r);
    }
  }

  lemma CutHere(s: string, a: string, c: char, b: string)
    requires Solid(a, c) && s == a + [c] + b
    ensures Before(s, c) == a && After(s, c) == b && IndexOf(s, c, 0) < |s|
  {
    IndexOfIs(s, c, 0, |a|);
  }

  lemma CutNowhere(s: string, c: char)
    requires Solid(s, c)
    ensures Before(s, c) == s && After(s, c) == "" && IndexOf(s, c, 0) == |s|
  {
    IndexOfIs(s, c, 0, |s|);
  }

  /** Text without dots, plus signs and hyphens. */
  predicate Tame(s: string) { VersionText(s) && Solid(s, '.') && Solid(s, '+') && Solid(s, '-') }

  lemma DecimalIsTame(n: nat)
    ensures Tame(Decimal(n)) && NoSpace(Decimal(n)) && AllDigits(Decimal(n))
  {
    DecimalRoundTrip(n);
  }

  lemma CoreIsRead(v: Version)
    ensures CoreOf(RenderCore(v)) == [Clamped(v.major), Clamped(v.minor), Clamped(v.patch)]
  {
    var a, b, c := Decimal(v.major), Decimal(v.minor), Decimal(v.patch);
    CoreSplits(RenderCore(v), a, b, c, v);
    PartIsRead([a, b, c], 0, v.major);
    PartIsRead([a, b, c], 1, v.minor);
    PartIsRead([a, b, c], 2, v.patch);
  }

  lemma CoreSplits(s: string, a: string, b: string, c: string, v: Version)
    requires a == Decimal(v.major) && b == Decimal(v.minor) && c == Decimal(v.patch) && s == a + "." + b + "." + c
    ensures CoreParts(s) == [a, b, c]
  {
    DecimalIsTame(v.major);
    DecimalIsTame(v.minor);
    var rest := b + "." + c;
    CutHere(s, a, '.', rest);
    CutHere(rest, b, '.', c);
  }

  lemma PartIsRead(parts: seq<string>, i: nat, n: nat)
    requires i < |parts| && parts[i] == Decimal(n)
    ensures PartValue(parts, i) == Clamped(n)
  {
    DecimalIsTame(n);
    TrimIsIdle(Decimal(n));
    AtoiOfDecimal(n);
  }

  lemma CoreIsTame(v: Version)
    ensures var s := RenderCore(v); VersionText(s) && Solid(s, '+') && Solid(s, '-') && IsDigit(s[0])
  {
    DecimalIsTame(v.major);
    DecimalIsTame(v.minor);
    DecimalIsTame(v.patch);
  }

  predicate PreIsTame(s: string) { s != "" && VersionText(s) && Solid(s, '+') }

  lemma TextIsTame(id: Identifier)
    requires WellFormedIdentifier(id)
    ensures PreIsTame(IdentifierText(id)) && Solid(IdentifierText(id), '.')
  {
    if id.Numeric? {
      DecimalIsTame(id.n);
    } else {
      forall i | 0 <= i < |id.s|
        ensures IdentifierChar(id.s[i])
      {
      }
    }
  }

  lemma {:induction false} JoinIsTame(parts: seq<string>, n: nat)
    requires 0 < n <= |parts| && forall i :: 0 <= i < n ==> PreIsTame(parts[i])
    ensures PreIsTame(Join(parts, n, '.'))
  {
    if n > 1 {
      JoinIsTame(parts, n - 1);
      assert PreIsTame(parts[n - 1]);
    } else {
      assert PreIsTame(parts[0]);
    }
  }

  lemma PreIsRead(ids: seq<Identifier>)
    requires ids != [] && forall i :: 0 <= i < |ids| ==> WellFormedIdentifier(ids[i])
    ensures PreIsTame(RenderPre(ids)) && Split(RenderPre(ids), '.') == IdentifierTexts(ids)
  {
    var texts := IdentifierTexts(ids);
    forall i | 0 <= i < |texts|
      ensures PreIsTame(texts[i]) && Solid(texts[i], '.')
    {
      assert WellFormedIdentifier(ids[i]);
      TextIsTame(ids[i]);
    }
    JoinIsTame(texts, |texts|);
    SplitJoin(texts, |texts|, '.');
    assert texts[..|texts|] == texts;
  }

  lemma BuildIsTame(b: string)
    requires WellFormedBuild(b)
    ensures VersionText(b) && Solid(b, '+')
  {
    forall i | 0 <= i < |b|
      ensures VersionChar(b[i]) && b[i] != '+'
    {
      assert IdentifierChar(b[i]) || b[i] == '.';
    }
  }

  lemma BareIsVersionText(v: Version)
    requires WellFormed(v)
    ensures VersionText(RenderBare(v)) && RenderBare(v) != "" && IsDigit(RenderBare(v)[0])
  {
    CoreIsTame(v);
    var pre, build := if v.pre == [] then "" else "-" + RenderPre(v.pre), RenderBuild(v.build);
    assert VersionText(pre) by {
      if v.pre != [] {
        PreIsRead(v.pre);
        VersionTextAppend("-", RenderPre(v.pre));
      }
    }
    assert VersionText(build) by {
      if v.build.Some? {
        BuildIsTame(v.build.value);
        VersionTextAppend("+", v.build.value);
      }
    }
    VersionTextAppend(RenderCore(v), pre);
    VersionTextAppend(RenderCore(v) + pre, build);
  }

  lemma VersionTextHasNoSpace(s: string)
    requires VersionText(s)
    ensures NoSpace(s) && NoSpace("v" + s)
  {
    assert forall c: char :: VersionChar(c) ==> !IsSpace(c);
  }

  lemma BareOfRendered(v: Version, prefixed: bool)
    requires WellFormed(v)
    ensures Bare(Render(v, prefixed)) == RenderBare(v)
  {
    var s := RenderBare(v);
    BareIsVersionText(v);
    VersionTextHasNoSpace(s);
    TrimIsIdle(s);
    TrimIsIdle("v" + s);
    assert ("v" + s)[1..] == s;
  }

  /** What is taken for the prerelease: for a release, what follows the first hyphen of its build. */
  function SeenPre(v: Version): string
  {
    if v.pre != [] then RenderPre(v.pre)
    else if v.build.None? then ""
    else After(v.build.value, '-')
  }

  lemma CutsOfPrerelease(s: string, core: string, pre: string, build: Option<string>)
    requires Solid(core, '-') && Solid(core, '+') && Solid(pre, '+')
    requires s == core + "-" + pre + RenderBuild(build)
    ensures Before(Before(s, '-'), '+') == core && Before(After(s, '-'), '+') == pre
  {
    var rest := pre + RenderBuild(build);
    assert s == core + "-" + rest;
    CutHere(s, core, '-', rest);
    CutNowhere(core, '+');
    if build.None? {
      assert rest == pre;
      CutNowhere(pre, '+');
    } else {
      assert rest == pre + "+" + build.value;
      CutHere(rest, pre, '+', build.value);
    }
  }

  lemma CutsOfRelease(s: string, core: string, b: string)
    requires Solid(core, '-') && Solid(core, '+') && Solid(b, '+') && s == core + "+" + b
    ensures Before(Before(s, '-'), '+') == core && Before(After(s, '-'), '+') == After(b, '-')
  {
    var h := IndexOf(b, '-', 0);
    if h == |b| {
      assert Solid(s, '-');
      CutNowhere(s, '-');
      CutNowhere(b, '-');
      CutHere(s, core, '+', b);
      CutNowhere("", '+');
    } else {
      var head := core + "+" + b[..h];
      assert Solid(head, '-') && b == b[..h] + "-" + b[h + 1..];
      assert s == head + "-" + b[h + 1..];
      CutHere(s, head, '-', b[h + 1..]);
      CutHere(head, core, '+', b[..h]);
      CutNowhere(b[h + 1..], '+');
    }
  }

  lemma PrereleaseIsCut(v: Version)
    requires WellFormed(v) && v.pre != []
    ensures var s := RenderBare(v);
            Before(Before(s, '-'), '+') == RenderCore(v) && Before(After(s, '-'), '+') == RenderPre(v.pre)
  {
    CoreIsTame(v);
    PreIsRead(v.pre);
    assert RenderBare(v) == RenderCore(v) + "-" + RenderPre(v.pre) + RenderBuild(v.build);
    CutsOfPrerelease(RenderBare(v), RenderCore(v), RenderPre(v.pre), v.build);
  }

  lemma BareIsCut(v: Version)
    requires WellFormed(v)
    ensures var s := RenderBare(v);
            Before(Before(s, '-'), '+') == RenderCore(v) && Before(After(s, '-'), '+') == SeenPre(v)
  {
    var s, core := RenderBare(v), RenderCore(v);
    CoreIsTame(v);
    if v.pre != [] {
      PrereleaseIsCut(v);
    } else if v.build.None? {
      assert s == core;
      CutNowhere(core, '-');
      CutNowhere(core, '+');
      CutNowhere("", '+');
    } else {
      BuildIsTame(v.build.value);
      assert s == core + "+" + v.build.value;
      CutsOfRelease(s, core, v.build.value);
    }
  }

  /** What the comparison works with for a rendered version. */
  function SeenRank(v: Version): Rank
  {
    Rank([Clamped(v.major), Clamped(v.minor), Clamped(v.patch)],
         if v.pre != [] then Some(KeysOf(IdentifierTexts(v.pre))) else PreOf(SeenPre(v)))
  }

  lemma {:induction false} RenderedIsSeen(v: Version, prefixed: bool)
    requires WellFormed(v)
    ensures RankOf(Render(v, prefixed)) == SeenRank(v)
  {
    BareOfRendered(v, prefixed);
    BareIsCut(v);
    CoreIsRead(v);
    if v.pre != [] {
      PreIsRead(v.pre);
    }
  }

  function MeantKeys(ids: seq<Identifier>): (r: seq<Key>)
    ensures |r| == |ids|
  {
    seq(|ids|, i requires 0 <= i < |ids| => Meant(ids[i]))
  }

  /** What the version means, for comparing. */
  function MeantRank(v: Version): Rank
  {
    Rank([v.major, v.minor, v.patch], if v.pre == [] then None else Some(MeantKeys(v.pre)))
  }

  /** Numerals fit, no identifier looks like a negative number, and the build metadata of a release
      has no hyphen with something behind it. */
  predicate Readable(v: Version)
  {
    && v.major <= MAX_INT && v.minor <= MAX_INT && v.patch <= MAX_INT
    && (forall i :: 0 <= i < |v.pre| ==> ReadableIdentifier(v.pre[i]))
    && (v.pre == [] ==> SeenPre(v) == "")
  }

  lemma KeysAreMeant(ids: seq<Identifier>)
    requires forall i :: 0 <= i < |ids| ==> WellFormedIdentifier(ids[i])
    ensures KeysOf(IdentifierTexts(ids)) == MeantKeys(ids) <==> forall i :: 0 <= i < |ids| ==> ReadableIdentifier(ids[i])
  {
    var seen, meant := KeysOf(IdentifierTexts(ids)), MeantKeys(ids);
    forall i | 0 <= i < |ids|
      ensures seen[i] == meant[i] <==> ReadableIdentifier(ids[i])
    {
      IdentifierIsRead(ids[i]);
    }
  }

  /** A rendered version is read as what it means exactly when it is readable. */
  lemma {:induction false} ReadAsMeantIffReadable(v: Version, prefixed: bool)
    requires WellFormed(v)
    ensures RankOf(Render(v, prefixed)) == MeantRank(v) <==> Readable(v)
  {
    RenderedIsSeen(v, prefixed);
    KeysAreMeant(v.pre);
    var seen, meant := SeenRank(v), MeantRank(v);
    assert seen.core == meant.core <==> seen.core[0] == meant.core[0] && seen.core[1] == meant.core[1] && seen.core[2] == meant.core[2];
  }

  // --- Agreement -------------------------------------------------------------------------------

  lemma {:induction false} TextCompared(a: string, b: string, i: nat)
    requires i <= |a| && i <= |b| && a[..i] == b[..i]
    ensures CompareText(a, b, i) < 0 <==> TextLower(a, b)
    ensures CompareText(a, b, i) == 0 <==> a == b
    decreases |a| - i
  {
    if i < |a| && i < |b| && a[i] == b[i] {
      assert a[..i + 1] == a[..i] + [a[i]] && b[..i + 1] == b[..i] + [b[i]];
      TextCompared(a, b, i + 1);
    } else {
      FirstDifferenceIsAt(a, b, i);
    }
  }

  /** The first position where the texts part decides. */
  lemma FirstDifferenceIsAt(a: string, b: string, i: nat)
    requires i <= |a| && i <= |b| && a[..i] == b[..i] && (i < |a| && i < |b| ==> a[i] != b[i])
    ensures TextLower(a, b) <==> FirstDifferenceLower(a, b, i)
    ensures a == b <==> i == |a| == |b|
  {
    forall j | 0 <= j < i
      ensures a[j] == b[j]
    {
      assert a[..i][j] == b[..i][j];
    }
    if i < |a| && i < |b| {
      forall j | i < j <= |a| && j <= |b|
        ensures a[..j] != b[..j]
      {
        assert a[..j][i] == a[i] && b[..j][i] == b[i];
      }
    }
    assert a[..|a|] == a && b[..|b|] == b;
  }

  lemma KeyCompared(a: Identifier, b: Identifier)
    ensures CompareKey(Meant(a), Meant(b)) < 0 <==> IdentifierLower(a, b)
    ensures CompareKey(Meant(a), Meant(b)) == 0 <==> a == b
  {
    if a.Alphanumeric? && b.Alphanumeric? {
      TextCompared(a.s, b.s, 0);
    }
  }

  lemma NotLowerThanItself(a: Identifier)
    ensures !IdentifierLower(a, a)
  {
    KeyAntisymmetric(Meant(a), Meant(a));
    KeyCompared(a, a);
  }

  lemma FirstIdentifierIsAt(a: seq<Identifier>, b: seq<Identifier>, i: nat)
    requires i <= |a| && i <= |b| && a[..i] == b[..i] && (i < |a| && i < |b| ==> a[i] != b[i])
    ensures IdentifiersLower(a, b) <==> IdentifiersLowerAt(a, b, i)
    ensures a == b <==> i == |a| == |b|
  {
    forall j | 0 <= j < i
      ensures !IdentifierLower(a[j], b[j])
    {
      assert a[..i][j] == b[..i][j];
      NotLowerThanItself(a[j]);
    }
    if i < |a| && i < |b| {
      forall j | i < j <= |a| && j <= |b|
        ensures a[..j] != b[..j]
      {
        assert a[..j][i] == a[i] && b[..j][i] == b[i];
      }
    }
    assert a[..|a|] == a && b[..|b|] == b;
  }

  lemma {:induction false} KeysCompared(a: seq<Identifier>, b: seq<Identifier>, i: nat)
    requires i <= |a| && i <= |b| && a[..i] == b[..i]
    ensures CompareKeys(MeantKeys(a), MeantKeys(b), i) < 0 <==> IdentifiersLower(a, b)
    ensures CompareKeys(MeantKeys(a), MeantKeys(b), i) == 0 <==> a == b
    decreases |a| - i
  {
    if i < |a| && i < |b| {
      KeyCompared(a[i], b[i]);
      if a[i] == b[i] {
        assert a[..i + 1] == a[..i] + [a[i]] && b[..i + 1] == b[..i] + [b[i]];
        KeysCompared(a, b, i + 1);
      } else {
        FirstIdentifierIsAt(a, b, i);
      }
    } else {
      FirstIdentifierIsAt(a, b, i);
    }
  }

  lemma MeaningsCompared(v: Version, w: Version)
    ensures CompareRank(MeantRank(v), MeantRank(w)) < 0 <==> Lower(v, w)
    ensures CompareRank(MeantRank(v), MeantRank(w)) == 0 <==> SameCore(v, w) && v.pre == w.pre
  {
    CoreCompared(MeantRank(v).core, MeantRank(w).core);
    KeysCompared(v.pre, w.pre, 0);
  }

  lemma CoreCompared(a: seq<int>, b: seq<int>)
    requires |a| == |b| == 3
    ensures CompareCore(a, b, 0) == if a[0] != b[0] then Sign(a[0], b[0]) else if a[1] != b[1] then Sign(a[1], b[1]) else Sign(a[2], b[2])
  {
    assert CompareCore(a, b, 2) == Sign(a[2], b[2]);
    assert CompareCore(a, b, 1) == if a[1] != b[1] then Sign(a[1], b[1]) else CompareCore(a, b, 2);
  }

  predicate SignAgrees(r: int, v: Version, w: Version)
  {
    && (r < 0 <==> Lower(v, w))
    && (r == 0 <==> SameCore(v, w) && v.pre == w.pre)
    && (r > 0 <==> Lower(w, v))
  }

  /** The comparison of the rendered versions is the standard's precedence. */
  predicate Agrees(v: Version, w: Version, p: bool, q: bool)
  {
    SignAgrees(CompareRank(RankOf(Render(v, p)), RankOf(Render(w, q))), v, w)
  }

  /** On readable versions the comparison is the standard's precedence. */
  lemma {:induction false} AgreesWithTheStandard(v: Version, w: Version, p: bool, q: bool)
    requires WellFormed(v) && WellFormed(w) && Readable(v) && Readable(w)
    ensures Agrees(v, w, p, q)
  {
    ReadAsMeantIffReadable(v, p);
    ReadAsMeantIffReadable(w, q);
    MeaningsCompared(v, w);
    MeaningsCompared(w, v);
    ComparisonIsAntisymmetric(Render(v, p), Render(w, q));
  }

  // --- Every unreadable version is compared wrongly with some readable one ----------------------

  /** A numeral that does not fit is read as the largest that does. */
  lemma TooBigIsMisread(v: Version) returns (w: Version)
    requires v.major > MAX_INT || v.minor > MAX_INT || v.patch > MAX_INT
    ensures WellFormed(w) && Readable(w) && !SignAgrees(CompareRank(SeenRank(v), SeenRank(w)), v, w)
  {
    w := Version(Clamped(v.major), Clamped(v.minor), Clamped(v.patch), [], None);
    assert SeenRank(w).core == SeenRank(v).core;
    CoreCompared(SeenRank(v).core, SeenRank(w).core);
    assert Lower(w, v);
  }

  /** The hyphen in the build metadata of a release is taken for the start of a prerelease. */
  lemma HyphenInBuildIsMisread(v: Version) returns (w: Version)
    requires v.major <= MAX_INT && v.minor <= MAX_INT && v.patch <= MAX_INT
    requires v.pre == [] && SeenPre(v) != ""
    ensures WellFormed(w) && Readable(w) && !SignAgrees(CompareRank(SeenRank(v), SeenRank(w)), v, w)
  {
    w := v.(build := None);
    assert SeenRank(w).core == SeenRank(v).core;
    CoreCompared(SeenRank(v).core, SeenRank(w).core);
  }

  lemma FirstUnreadable(ids: seq<Identifier>) returns (i: nat)
    requires exists k :: 0 <= k < |ids| && !ReadableIdentifier(ids[k])
    ensures i < |ids| && !ReadableIdentifier(ids[i]) && forall k :: 0 <= k < i ==> ReadableIdentifier(ids[k])
  {
    i := 0;
    while ReadableIdentifier(ids[i])
      invariant i < |ids| && forall k :: 0 <= k < i ==> ReadableIdentifier(ids[k])
      decreases |ids| - i
    {
      i := i + 1;
    }
  }

  lemma {:induction false} CompareAtFirstDifference(a: seq<Key>, b: seq<Key>, k: nat, i: nat)
    requires k <= i < |a| && i < |b| && CompareKey(a[i], b[i]) != 0
    requires forall j :: k <= j < i ==> a[j] == b[j]
    ensures CompareKeys(a, b, k) == CompareKey(a[i], b[i])
    decreases i - k
  {
    if k < i {
      KeyAntisymmetric(a[k], b[k]);
      CompareAtFirstDifference(a, b, k + 1, i);
    }
  }

  /** A readable identifier that stands in the wrong order to an unreadable one. */
  function Opposite(id: Identifier): Identifier { if id.Numeric? then Alphanumeric("-") else Numeric(1) }

  lemma OppositeIsReadable(id: Identifier)
    ensures WellFormedIdentifier(Opposite(id)) && ReadableIdentifier(Opposite(id))
  {
    assert !IsDigit("-"[0]);
  }

  lemma OversizedNumberIsMisread(n: nat)
    requires n > MAX_INT
    ensures CompareKey(KeyOf(Decimal(n)), KeyOf("-")) > 0
  {
    AtoiOfDecimal(n);
    DecimalRoundTrip(n);
    assert KeyOf("-") == Word("-");
    assert IsDigit(Decimal(n)[0]);
  }

  lemma NegativeIsMisread(s: string)
    requires LooksNegative(s)
    ensures CompareKey(KeyOf(s), KeyOf(Decimal(1))) < 0
  {
    var d := s[1..];
    ScanOfDigits(d, |d|);
    AtoiOfDecimal(1);
  }

  lemma OppositeIsMisread(id: Identifier)
    requires WellFormedIdentifier(id) && !ReadableIdentifier(id)
    ensures var c := CompareKey(KeyOf(IdentifierText(id)), KeyOf(IdentifierText(Opposite(id))));
            c != 0 && (c < 0 <==> !IdentifierLower(id, Opposite(id)))
  {
    if id.Numeric? {
      OversizedNumberIsMisread(id.n);
    } else {
      NegativeIsMisread(id.s);
    }
  }

  /** The version up to its first unreadable identifier, and the opposite in its place. */
  function Twisted(v: Version, i: nat): Version
    requires i < |v.pre|
  {
    v.(pre := v.pre[..i] + [Opposite(v.pre[i])], build := None)
  }

  lemma TwistedIsReadable(v: Version, i: nat)
    requires WellFormed(v) && i < |v.pre| && v.major <= MAX_INT && v.minor <= MAX_INT && v.patch <= MAX_INT
    requires forall k :: 0 <= k < i ==> ReadableIdentifier(v.pre[k])
    ensures WellFormed(Twisted(v, i)) && Readable(Twisted(v, i))
  {
    OppositeIsReadable(v.pre[i]);
  }

  lemma UnreadableIdentifierIsMisread(v: Version, i: nat)
    requires WellFormed(v) && i < |v.pre| && !ReadableIdentifier(v.pre[i])
    ensures !SignAgrees(CompareRank(SeenRank(v), SeenRank(Twisted(v, i))), v, Twisted(v, i))
  {
    var w := Twisted(v, i);
    var a, b := KeysOf(IdentifierTexts(v.pre)), KeysOf(IdentifierTexts(w.pre));
    assert WellFormedIdentifier(v.pre[i]);
    OppositeIsMisread(v.pre[i]);
    assert w.pre[i] == Opposite(v.pre[i]) && forall j :: 0 <= j < i ==> v.pre[j] == w.pre[j];
    CompareAtFirstDifference(a, b, 0, i);
    CoreCompared(SeenRank(v).core, SeenRank(w).core);
    assert w.pre[..i] == v.pre[..i];
    FirstIdentifierIsAt(v.pre, w.pre, i);
  }

  lemma UnreadableIsMisread(v: Version) returns (w: Version)
    requires WellFormed(v) && !Readable(v)
    ensures WellFormed(w) && Readable(w) && !SignAgrees(CompareRank(SeenRank(v), SeenRank(w)), v, w)
  {
    if v.major > MAX_INT || v.minor > MAX_INT || v.patch > MAX_INT {
      w := TooBigIsMisread(v);
    } else if v.pre == [] {
      w := HyphenInBuildIsMisread(v);
    } else {
      var i := FirstUnreadable(v.pre);
      w := Twisted(v, i);
      TwistedIsReadable(v, i);
      UnreadableIdentifierIsMisread(v, i);
    }
  }

  ghost predicate AgreesWithReadable(v: Version)
  {
    forall w, p, q :: WellFormed(w) && Readable(w) ==> Agrees(v, w, p, q)
  }

  /** A well-formed version is compared with every readable one as the standard says exactly when it is
      readable itself. */
  lemma AgreesIffReadable(v: Version)
    requires WellFormed(v)
    ensures AgreesWithReadable(v) <==> Readable(v)
  {
    if Readable(v) {
      forall w, p, q | WellFormed(w) && Readable(w)
        ensures Agrees(v, w, p, q)
      {
        AgreesWithTheStandard(v, w, p, q);
      }
    } else {
      var w := UnreadableIsMisread(v);
      RenderedIsSeen(v, false);
      RenderedIsSeen(w, false);
      assert !Agrees(v, w, false, false);
    }
  }
}
