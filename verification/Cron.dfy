/**
 The schedule form's presets and their cron expressions (web/src/index/schedules.js).
 */
module Cron {
  import opened Prelude
  import opened Text

  datatype Frequency = Manual | Hourly | Daily | Weekdays | Weekly | Custom

  datatype Fields = Fields(frequency: Frequency, minute: nat, hour: nat, weekday: nat)

  const CUSTOM := Fields(Custom, 0, 9, 1)

  /** The value read from the form, if it reads as a number, moved into the range. */
  function ClampInt(value: Option<int>, min: nat, max: nat, fallback: nat): (r: nat)
    requires min <= fallback <= max
    ensures min <= r <= max
  {
    if value.None? then fallback
    else if value.value < min then min
    else if value.value > max then max
    else value.value
  }

  function InRange(frequency: Frequency, minute: Option<int>, hour: Option<int>, weekday: Option<int>): Fields
  {
    Fields(frequency, ClampInt(minute, 0, 59, 0), ClampInt(hour, 0, 23, 9), ClampInt(weekday, 0, 6, 1))
  }

  /** The five fields of an expression. */
  function Parts(f: Fields): seq<string>
  {
    match f.frequency
    case Hourly => [Decimal(f.minute), "*", "*", "*", "*"]
    case Daily => [Decimal(f.minute), Decimal(f.hour), "*", "*", "*"]
    case Weekdays => [Decimal(f.minute), Decimal(f.hour), "*", "*", "1-5"]
    case Weekly => [Decimal(f.minute), Decimal(f.hour), "*", "*", Decimal(f.weekday)]
    case _ => []
  }

  function BuildCron(frequency: Frequency, minute: Option<int>, hour: Option<int>, weekday: Option<int>): string
  {
    var parts := Parts(InRange(frequency, minute, hour, weekday));
    Join(parts, |parts|, ' ')
  }

  /** Splitting at runs of white space, in progress. */
  function ReadWord(p: Pieces, c: char): Pieces
  {
    if !IsSpace(c) then Pieces(p.done, p.last + [c])
    else if p.last == "" then p
    else Pieces(p.done + [p.last], "")
  }

  function WordsOf(s: string, n: nat): Pieces
    requires n <= |s|
  {
    if n == 0 then Pieces([], "") else ReadWord(WordsOf(s, n - 1), s[n - 1])
  }

  function Words(s: string): seq<string>
  {
    var p := WordsOf(s, |s|);
    if p.last == "" then p.done else p.done + [p.last]
  }

  function NumOrNull(s: string): Option<nat>
  {
    if s != "" && AllDigits(s) then Some(ValueOf(s, |s|)) else None
  }

  function ParseParts(parts: seq<string>): Fields
  {
    if |parts| != 5 then CUSTOM
    else
      var minute, hour, weekday := NumOrNull(parts[0]), NumOrNull(parts[1]), NumOrNull(parts[4]);
      if minute.None? || parts[2] != "*" || parts[3] != "*" then CUSTOM
      else if parts[1] == "*" && parts[4] == "*" then Fields(Hourly, minute.value, 9, 1)
      else if hour.None? then CUSTOM
      else if parts[4] == "*" then Fields(Daily, minute.value, hour.value, 1)
      else if parts[4] == "1-5" then Fields(Weekdays, minute.value, hour.value, 1)
      else if weekday.Some? && weekday.value <= 6 then Fields(Weekly, minute.value, hour.value, weekday.value)
      else CUSTOM
  }

  function ParseCron(expr: string): Fields
  {
    var trimmed := Trim(expr);
    if trimmed == "" then Fields(Manual, 0, 9, 1) else ParseParts(Words(trimmed))
  }

  // --- Round trip --------------------------------------------------------------------

  predicate IsWord(s: string) { s != "" && NoSpace(s) }

  lemma {:induction false} WordGrows(s: string, k: nat, w: string, n: nat, done: seq<string>)
    requires n <= |w| && k + |w| <= |s| && NoSpace(w) && (forall i {:trigger w[i]} :: 0 <= i < |w| ==> s[k + i] == w[i])
    requires WordsOf(s, k) == Pieces(done, "")
    ensures WordsOf(s, k + n) == Pieces(done, w[..n])
  {
    if n > 0 {
      WordGrows(s, k, w, n - 1, done);
      assert s[k + (n - 1)] == w[n - 1];
      assert w[..n] == w[..n - 1] + [w[n - 1]];
    }
  }

  lemma {:induction false} WordsAgree(a: string, b: string, n: nat)
    requires n <= |a| && n <= |b| && forall i :: 0 <= i < n ==> a[i] == b[i]
    ensures WordsOf(a, n) == WordsOf(b, n)
  {
    if n > 0 {
      WordsAgree(a, b, n - 1);
    }
  }

  lemma {:induction false} SpaceEndsWord(s: string, a: string, p: Pieces)
    requires |a| < |s| && s[..|a|] == a && s[|a|] == ' ' && WordsOf(a, |a|) == p && p.last != ""
    ensures WordsOf(s, |a| + 1) == Pieces(p.done + [p.last], "")
  {
    forall i | 0 <= i < |a|
      ensures s[i] == a[i]
    {
      assert s[i] == s[..|a|][i];
    }
    WordsAgree(s, a, |a|);
    assert WordsOf(s, |a| + 1) == ReadWord(p, ' ');
  }

  lemma WholeWord(s: string, k: nat, w: string, done: seq<string>, end: nat)
    requires end == k + |w| <= |s| && IsWord(w) && s[k..end] == w && WordsOf(s, k) == Pieces(done, "")
    ensures WordsOf(s, end) == Pieces(done, w)
  {
    forall i {:trigger w[i]} | 0 <= i < |w|
      ensures s[k + i] == w[i]
    {
      assert s[k + i] == s[k..end][i];
    }
    WordGrows(s, k, w, |w|, done);
    assert w[..|w|] == w;
  }

  lemma SlicesAroundSpace(s: string, a: string, w: string)
    requires s == a + " " + w
    ensures s[..|a|] == a && s[|a|] == ' ' && s[|a| + 1..|s|] == w
  {
  }

  lemma OneMoreWord(s: string, a: string, w: string, p: Pieces, end: nat)
    requires |a| < end == |a| + 1 + |w| == |s| && s[..|a|] == a && s[|a|] == ' ' && s[|a| + 1..end] == w
    requires WordsOf(a, |a|) == p && p.last != "" && IsWord(w)
    ensures WordsOf(s, end) == Pieces(p.done + [p.last], w)
  {
    SpaceEndsWord(s, a, p);
    WholeWord(s, |a| + 1, w, p.done + [p.last], end);
  }

  /** Words with single spaces between them are found again. */
  lemma {:induction false} WordsJoin(parts: seq<string>, n: nat)
    requires 0 < n <= |parts| && forall i :: 0 <= i < n ==> IsWord(parts[i])
    ensures var s := Join(parts, n, ' ');
            && WordsOf(s, |s|) == Pieces(parts[..n - 1], parts[n - 1])
            && s != "" && !IsSpace(s[0]) && !IsSpace(s[|s| - 1])
  {
    var w := parts[n - 1];
    assert IsWord(w);
    if n == 1 {
      WordGrows(w, 0, w, |w|, []);
      assert w[..|w|] == w && parts[..0] == [];
    } else {
      WordsJoin(parts, n - 1);
      var a, s := Join(parts, n - 1, ' '), Join(parts, n, ' ');
      SlicesAroundSpace(s, a, w);
      OneMoreWord(s, a, w, Pieces(parts[..n - 2], parts[n - 2]), |s|);
      assert parts[..n - 1] == parts[..n - 2] + [parts[n - 2]];
      assert s[0] == a[0] && s[|s| - 1] == w[|w| - 1];
    }
  }

  lemma DecimalIsWord(n: nat)
    ensures IsWord(Decimal(n)) && NumOrNull(Decimal(n)) == Some(n) && Decimal(n) != "*" && Decimal(n) != "1-5"
  {
    DecimalRoundTrip(n);
    assert !IsDigit("*"[0]) && !IsDigit("1-5"[1]);
  }

  predicate Preset(frequency: Frequency) { !frequency.Manual? && !frequency.Custom? }

  /** What a preset keeps of the fields; the ones it does not use have their defaults. */
  function Kept(f: Fields): Fields
  {
    match f.frequency
    case Hourly => Fields(Hourly, f.minute, 9, 1)
    case Weekly => f
    case _ => f.(weekday := 1)
  }

  lemma PartsAreWords(f: Fields)
    requires Preset(f.frequency)
    ensures |Parts(f)| == 5 && (forall i :: 0 <= i < 5 ==> IsWord(Parts(f)[i]))
    ensures f.weekday <= 6 ==> ParseParts(Parts(f)) == Kept(f)
  {
    DecimalIsWord(f.minute);
    DecimalIsWord(f.hour);
    DecimalIsWord(f.weekday);
    assert NoSpace("*") && NoSpace("1-5");
    assert !IsDigit("*"[0]);
  }

  lemma ParseJoined(f: Fields)
    requires Preset(f.frequency) && f.weekday <= 6
    ensures var parts := Parts(f); ParseCron(Join(parts, |parts|, ' ')) == Kept(f)
  {
    PartsAreWords(f);
    var parts := Parts(f);
    WordsJoin(parts, 5);
    TrimKeepsSolidEnds(Join(parts, 5, ' '));
    assert parts[..4] + [parts[4]] == parts;
  }

  /** Parsing a built expression gives back the preset and its fields, moved into range. */
  lemma {:induction false} BuiltIsParsed(frequency: Frequency, minute: Option<int>, hour: Option<int>, weekday: Option<int>)
    ensures ParseCron(BuildCron(frequency, minute, hour, weekday)) ==
              if Preset(frequency) then Kept(InRange(frequency, minute, hour, weekday)) else Fields(Manual, 0, 9, 1)
  {
    if Preset(frequency) {
      ParseJoined(InRange(frequency, minute, hour, weekday));
    }
  }

  function Rebuilt(f: Fields): string { BuildCron(f.frequency, Some(f.minute), Some(f.hour), Some(f.weekday)) }

  lemma ParsedIsPreset(parts: seq<string>)
    ensures var f := ParseParts(parts);
            Preset(f.frequency) ==> f.weekday <= 6 && Kept(f) == f
  {
  }

  /** An expression shown as a preset survives opening and saving the form exactly when its minute
      and hour are in range; parsing does not check them and building moves them. */
  lemma {:induction false} EditingKeepsIff(expr: string)
    requires Preset(ParseCron(expr).frequency)
    ensures var f := ParseCron(expr);
            ParseCron(Rebuilt(f)) == f <==> f.minute <= 59 && f.hour <= 23
  {
    var f := ParseCron(expr);
    ParsedIsPreset(Words(Trim(expr)));
    BuiltIsParsed(f.frequency, Some(f.minute), Some(f.hour), Some(f.weekday));
  }
}
