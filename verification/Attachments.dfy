/**
 Attachment references in user messages: how the server writes them into a message
 (internal/chat/uploads.go, internal/server/chat.go) and how the browser takes them out again
 (web/src/components/session/attachment-refs.js).
 */
module Attachments {
  import opened Prelude
  import opened Text

  /** A file saved for a message. */
  datatype Upload = Upload(path: string, mime: string, size: nat)

  /** A reference read out of a message; `name` is what follows the path's last separator. */
  datatype Ref = Ref(path: string, name: string, mime: string, size: nat)

  datatype Extraction = Extraction(text: string, refs: seq<Ref>)

  const PREFIX := "[Attached file: "
  const SUFFIX := " bytes)]"

  // --- Writing ---------------------------------------------------------------------

  function Body(path: string, mime: string, size: string): string { path + " (" + mime + ", " + size }

  function AttachmentLine(u: Upload): string { PREFIX + Body(u.path, u.mime, Decimal(u.size)) + SUFFIX }

  function Lines(ups: seq<Upload>, n: nat): (r: seq<string>)
    requires n <= |ups|
    ensures |r| == n
  {
    if n == 0 then [] else Lines(ups, n - 1) + [AttachmentLine(ups[n - 1])]
  }

  /** The message that is sent: the references go below what the user wrote. */
  function Assembled(message: string, ups: seq<Upload>): string
  {
    var refs := Join(Lines(ups, |ups|), |ups|, '\n');
    if ups == [] then message
    else if message != "" then message + "\n\n" + refs
    else refs
  }

  method SaveChatUploads(message: string, saved: seq<Upload>) returns (r: string)
    ensures r == Assembled(message, saved)
  {
    r := message;
    if |saved| == 0 {
      return;
    }
    var lines: seq<string> := [];
    for n := 0 to |saved|
      invariant lines == Lines(saved, n)
    {
      lines := lines + [AttachmentLine(saved[n])];
    }
    if message != "" {
      r := message + "\n\n" + Join(lines, |lines|, '\n');
    } else {
      r := Join(lines, |lines|, '\n');
    }
  }

  // --- Reading one line --------------------------------------------------------------

  /** What `.` in the pattern accepts. */
  predicate InLine(c: char) { c != '\n' && c != '\r' && c != '\U{2028}' && c != '\U{2029}' }

  predicate PathOk(path: string) { path != "" && forall i :: 0 <= i < |path| ==> InLine(path[i]) }

  predicate MimeChar(c: char) { c != ',' && c != '(' && c != ')' }

  predicate MimeOk(mime: string) { mime != "" && forall i :: 0 <= i < |mime| ==> MimeChar(mime[i]) }

  predicate SizeOk(size: string) { size != "" && AllDigits(size) }

  /** The pattern: the line is an attachment reference with these three groups. */
  predicate Shaped(line: string, path: string, mime: string, size: string)
  {
    && PathOk(path) && MimeOk(mime) && SizeOk(size)
    && line == PREFIX + Body(path, mime, size) + SUFFIX
  }

  /** Where the digits that end the first `n` characters begin. */
  function DigitsFrom(s: string, n: nat): (r: nat)
    requires n <= |s|
    ensures r <= n && (forall i :: r <= i < n ==> IsDigit(s[i])) && (r > 0 ==> !IsDigit(s[r - 1]))
  {
    if n > 0 && IsDigit(s[n - 1]) then DigitsFrom(s, n - 1) else n
  }

  function MimeFrom(s: string, n: nat): (r: nat)
    requires n <= |s|
    ensures r <= n && (forall i :: r <= i < n ==> MimeChar(s[i])) && (r > 0 ==> !MimeChar(s[r - 1]))
  {
    if n > 0 && MimeChar(s[n - 1]) then MimeFrom(s, n - 1) else n
  }

  function AfterLastSeparator(path: string, n: nat): (r: nat)
    requires n <= |path|
    ensures r <= n && (forall i :: r <= i < n ==> path[i] != '/' && path[i] != '\\')
    ensures r > 0 ==> path[r - 1] == '/' || path[r - 1] == '\\'
  {
    if n > 0 && path[n - 1] != '/' && path[n - 1] != '\\' then AfterLastSeparator(path, n - 1) else n
  }

  function Name(path: string): string { path[AfterLastSeparator(path, |path|)..] }

  /** A name is what follows the last separator. */
  lemma {:induction false} NameIs(dir: string, base: string)
    requires '/' !in base && '\\' !in base && (dir == "" || dir[|dir| - 1] in {'/', '\\'})
    ensures Name(dir + base) == base
  {
    SeparatorIs(dir + base, |dir + base|, |dir|);
  }

  lemma {:induction false} SeparatorIs(path: string, n: nat, r: nat)
    requires r <= n <= |path| && (forall i :: r <= i < n ==> path[i] != '/' && path[i] != '\\')
    requires r == 0 || path[r - 1] in {'/', '\\'}
    ensures AfterLastSeparator(path, n) == r
  {
    if r < n {
      SeparatorIs(path, n - 1, r);
    }
  }

  /** A path is anything on one line, a type anything without a comma or a parenthesis, a size digits. */
  lemma GroupsMean(s: string)
    ensures PathOk(s) <==> s != "" && '\n' !in s && '\r' !in s && '\U{2028}' !in s && '\U{2029}' !in s
    ensures MimeOk(s) <==> s != "" && ',' !in s && '(' !in s && ')' !in s
    ensures SizeOk(s) <==> s != "" && forall i :: 0 <= i < |s| ==> s[i] in "0123456789"
  {
    assert "0123456789"[0] == '0';
    forall c: char
      ensures c in "0123456789" <==> '0' <= c <= '9'
    {
      DigitIsOneOfTen(c);
    }
  }

  lemma DigitIsOneOfTen(c: char)
    ensures c in "0123456789" <==> '0' <= c <= '9'
  {
    if '0' <= c <= '9' {
      assert "0123456789"[c as int - '0' as int] == c;
    }
  }

  /** The three groups of what stands between the fixed ends of the line, read from the right. */
  function MatchBody(b: string): (r: Option<Ref>)
    ensures r.Some? ==> PathOk(r.value.path) && MimeOk(r.value.mime)
  {
    var d := DigitsFrom(b, |b|);
    if d == |b| || d < 2 || b[d - 2..d] != ", " then None else MatchGroups(b, MimeFrom(b, d - 2), d)
  }

  /** The groups, the second from `m` and the third from `d` on. */
  function MatchGroups(b: string, m: nat, d: nat): (r: Option<Ref>)
    requires 2 <= d <= |b| && m <= d - 2
    requires (forall i :: m <= i < d - 2 ==> MimeChar(b[i])) && forall i :: d <= i < |b| ==> IsDigit(b[i])
    ensures r.Some? ==> PathOk(r.value.path) && MimeOk(r.value.mime)
  {
    if m == d - 2 || m < 2 || b[m - 2..m] != " (" || !PathOk(b[..m - 2]) then None
    else Some(Ref(b[..m - 2], Name(b[..m - 2]), b[m..d - 2], ValueOf(b[d..], |b| - d)))
  }

  /** Matching a line against the pattern. */
  function Match(line: string): Option<Ref>
  {
    if |line| < |PREFIX| + |SUFFIX| || line[..|PREFIX|] != PREFIX || line[|line| - |SUFFIX|..] != SUFFIX then None
    else MatchBody(line[|PREFIX|..|line| - |SUFFIX|])
  }

  lemma {:induction false} DigitsFromIs(s: string, n: nat, d: nat)
    requires d <= n <= |s| && (forall i :: d <= i < n ==> IsDigit(s[i])) && (d > 0 ==> !IsDigit(s[d - 1]))
    ensures DigitsFrom(s, n) == d
  {
    if d < n {
      DigitsFromIs(s, n - 1, d);
    }
  }

  lemma {:induction false} MimeFromIs(s: string, n: nat, m: nat)
    requires m <= n <= |s| && (forall i :: m <= i < n ==> MimeChar(s[i])) && (m > 0 ==> !MimeChar(s[m - 1]))
    ensures MimeFrom(s, n) == m
  {
    if m < n {
      MimeFromIs(s, n - 1, m);
    }
  }

  lemma GroupsAt(b: string, m: nat, d: nat)
    requires 2 <= m && m + 2 < d < |b| && DigitsFrom(b, |b|) == d && MimeFrom(b, d - 2) == m
    requires b[d - 2..d] == ", " && b[m - 2..m] == " (" && PathOk(b[..m - 2])
    ensures MatchBody(b) == Some(Ref(b[..m - 2], Name(b[..m - 2]), b[m..d - 2], ValueOf(b[d..], |b| - d)))
  {
    assert MatchBody(b) == MatchGroups(b, m, d);
  }

  lemma BodySlices(b: string, path: string, mime: string, size: string)
    requires b == Body(path, mime, size)
    ensures var m := |path| + 2; var d := m + |mime| + 2;
            && d <= |b| && b[..m - 2] == path && b[m - 2..m] == " (" && b[m..d - 2] == mime
            && b[d - 2..d] == ", " && b[d..] == size
  {
  }

  lemma BodyScan(b: string, m: nat, d: nat, mime: string, size: string)
    requires 2 <= m <= d - 2 && d <= |b| && MimeOk(mime) && SizeOk(size)
    requires b[m - 2..m] == " (" && b[m..d - 2] == mime && b[d - 2..d] == ", " && b[d..] == size
    ensures DigitsFrom(b, |b|) == d && MimeFrom(b, d - 2) == m
  {
    forall i | d <= i < |b|
      ensures IsDigit(b[i])
    {
      assert b[i] == size[i - d];
    }
    forall i | m <= i < d - 2
      ensures MimeChar(b[i])
    {
      assert b[i] == mime[i - m];
    }
    assert b[d - 1] == b[d - 2..d][1] && b[m - 1] == b[m - 2..m][1];
    DigitsFromIs(b, |b|, d);
    MimeFromIs(b, d - 2, m);
  }

  lemma BodyMatches(b: string, path: string, mime: string, size: string)
    requires PathOk(path) && MimeOk(mime) && SizeOk(size) && b == Body(path, mime, size)
    ensures MatchBody(b) == Some(Ref(path, Name(path), mime, ValueOf(size, |size|)))
  {
    var m := |path| + 2;
    var d := m + |mime| + 2;
    BodySlices(b, path, mime, size);
    BodyScan(b, m, d, mime, size);
    GroupsAt(b, m, d);
  }

  lemma InFiveParts(b: string, i: nat, j: nat, k: nat, l: nat)
    requires i <= j <= k <= l <= |b|
    ensures b == b[..i] + b[i..j] + b[j..k] + b[k..l] + b[l..]
  {
  }

  lemma GroupsAreShaped(b: string, m: nat, d: nat)
    requires 2 <= d < |b| && m <= d - 2 && b[d - 2..d] == ", "
    requires (forall i :: m <= i < d - 2 ==> MimeChar(b[i])) && forall i :: d <= i < |b| ==> IsDigit(b[i])
    requires MatchGroups(b, m, d).Some?
    ensures var r := MatchGroups(b, m, d).value;
            SizeOk(b[d..]) && b == Body(r.path, r.mime, b[d..]) && r.size == ValueOf(b[d..], |b| - d)
  {
    BodyInParts(b, m, d);
  }

  lemma BodyInParts(b: string, m: nat, d: nat)
    requires 2 <= m && m + 2 <= d <= |b| && b[m - 2..m] == " (" && b[d - 2..d] == ", "
    ensures b == Body(b[..m - 2], b[m..d - 2], b[d..])
  {
    InFiveParts(b, m - 2, m, d - 2, d);
  }

  lemma {:induction false} BodyIsMatched(b: string) returns (size: string)
    requires MatchBody(b).Some?
    ensures var r := MatchBody(b).value;
            SizeOk(size) && b == Body(r.path, r.mime, size) && r.size == ValueOf(size, |size|)
  {
    var d := DigitsFrom(b, |b|);
    size := b[d..];
    GroupsAreShaped(b, MimeFrom(b, d - 2), d);
  }

  /** A line of the pattern's shape is read with its groups; they are unique although a path may
      itself hold what looks like a size. */
  lemma {:induction false} ShapedIsMatched(path: string, mime: string, size: string)
    requires PathOk(path) && MimeOk(mime) && SizeOk(size)
    ensures Match(PREFIX + Body(path, mime, size) + SUFFIX) == Some(Ref(path, Name(path), mime, ValueOf(size, |size|)))
  {
    var b := Body(path, mime, size);
    var line := PREFIX + b + SUFFIX;
    BodyMatches(b, path, mime, size);
    EndsAre(line, b);
  }

  lemma EndsAre(line: string, b: string)
    requires line == PREFIX + b + SUFFIX
    ensures Match(line) == MatchBody(b)
  {
    assert line[..|PREFIX|] == PREFIX && line[|line| - |SUFFIX|..] == SUFFIX;
    assert line[|PREFIX|..|line| - |SUFFIX|] == b;
  }

  /** A line that is read has the pattern's shape. */
  lemma {:induction false} MatchedIsShaped(line: string) returns (size: string)
    requires Match(line).Some?
    ensures var r := Match(line).value;
            Shaped(line, r.path, r.mime, size) && r.size == ValueOf(size, |size|)
  {
    var b := line[|PREFIX|..|line| - |SUFFIX|];
    assert line == PREFIX + b + SUFFIX;
    EndsAre(line, b);
    size := BodyIsMatched(b);
  }

  function RefOf(u: Upload): Ref { Ref(u.path, Name(u.path), u.mime, u.size) }

  predicate UploadOk(u: Upload) { PathOk(u.path) && MimeOk(u.mime) }

  /** A written line reads back as the upload exactly when path and type hold nothing the pattern
      takes for its own punctuation. */
  lemma {:induction false} LineRoundTrip(u: Upload)
    ensures Match(AttachmentLine(u)) == Some(RefOf(u)) <==> UploadOk(u)
  {
    DecimalRoundTrip(u.size);
    if UploadOk(u) {
      ShapedIsMatched(u.path, u.mime, Decimal(u.size));
    }
  }

  // --- Reading a message -----------------------------------------------------------------

  /** A line and the reference the pattern finds in it. */
  datatype Piece = Piece(line: string, found: Option<Ref>)

  function PiecesOf(lines: seq<string>): (r: seq<Piece>)
    ensures |r| == |lines|
  {
    seq(|lines|, i requires 0 <= i < |lines| => Piece(lines[i], Match(lines[i])))
  }

  /** The references among the first `n` lines. */
  function Refs(ps: seq<Piece>, n: nat): seq<Ref>
    requires n <= |ps|
  {
    if n == 0 then []
    else if ps[n - 1].found.Some? then Refs(ps, n - 1) + [ps[n - 1].found.value]
    else Refs(ps, n - 1)
  }

  /** The other lines among the first `n`. */
  function Kept(ps: seq<Piece>, n: nat): seq<string>
    requires n <= |ps|
  {
    if n == 0 then []
    else if ps[n - 1].found.Some? then Kept(ps, n - 1)
    else Kept(ps, n - 1) + [ps[n - 1].line]
  }

  predicate ThirdNewline(s: string, i: nat)
    requires i < |s|
  {
    i >= 2 && s[i] == '\n' && s[i - 1] == '\n' && s[i - 2] == '\n'
  }

  /** The first `n` characters with every run of three or more newlines cut to two. */
  function Collapsed(s: string, n: nat): (r: string)
    requires n <= |s|
    ensures |r| <= n
  {
    if n == 0 then ""
    else if ThirdNewline(s, n - 1) then Collapsed(s, n - 1)
    else Collapsed(s, n - 1) + [s[n - 1]]
  }

  function Newlines(k: nat): (r: string)
    ensures |r| == k && forall i :: 0 <= i < k ==> r[i] == '\n'
  {
    seq(k, _ => '\n')
  }

  lemma {:induction false} CollapsedAgrees(a: string, b: string, n: nat)
    requires n <= |a| && n <= |b| && a[..n] == b[..n]
    ensures Collapsed(a, n) == Collapsed(b, n)
  {
    if n > 0 {
      assert a[..n - 1] == a[..n][..n - 1] == b[..n - 1];
      assert forall i :: 0 <= i < n ==> a[i] == a[..n][i] == b[i];
      CollapsedAgrees(a, b, n - 1);
    }
  }

  lemma {:induction false} RunIsCut(a: string, s: string, k: nat)
    requires |a| + k <= |s| && s[..|a|] == a && (a == "" || a[|a| - 1] != '\n')
    requires forall i :: |a| <= i < |a| + k ==> s[i] == '\n'
    ensures Collapsed(s, |a| + k) == Collapsed(a, |a|) + Newlines(Min(k, 2))
  {
    if k == 0 {
      CollapsedAgrees(s, a, |a|);
      assert Collapsed(a, |a|) + Newlines(0) == Collapsed(a, |a|);
    } else {
      RunIsCut(a, s, k - 1);
      assert a != "" ==> s[..|a|][|a| - 1] == a[|a| - 1];
      assert ThirdNewline(s, |a| + k - 1) <==> k >= 3;
      if k <= 2 {
        assert Newlines(k - 1) + ['\n'] == Newlines(k);
        assert Collapsed(a, |a|) + Newlines(k - 1) + ['\n'] == Collapsed(a, |a|) + (Newlines(k - 1) + ['\n']);
      }
    }
  }

  lemma {:induction false} RestIsCut(s: string, m: nat, before: string, b: string, n: nat)
    requires m + |b| <= |s| && n <= |b| && (forall i {:trigger b[i]} :: 0 <= i < |b| ==> s[m + i] == b[i]) && (b == "" || b[0] != '\n')
    requires Collapsed(s, m) == before
    ensures Collapsed(s, m + n) == before + Collapsed(b, n)
  {
    if n == 0 {
      assert before + "" == before;
    } else {
      RestIsCut(s, m, before, b, n - 1);
      assert s[m + (n - 1)] == b[n - 1] && (n >= 2 ==> s[m + (n - 2)] == b[n - 2]) && (n >= 3 ==> s[m + (n - 3)] == b[n - 3]);
      assert ThirdNewline(s, m + n - 1) <==> ThirdNewline(b, n - 1);
      assert before + (Collapsed(b, n - 1) + [b[n - 1]]) == before + Collapsed(b, n - 1) + [b[n - 1]];
    }
  }

  lemma PartsStand(a: string, r: string, b: string, s: string, m: nat)
    requires s == a + r + b && m == |a| + |r|
    ensures |s| == m + |b| && s[..|a|] == a
    ensures forall i :: |a| <= i < m ==> s[i] == r[i - |a|]
    ensures forall i {:trigger b[i]} :: 0 <= i < |b| ==> s[m + i] == b[i]
  {
  }

  lemma AllIsCut(s: string, m: nat, before: string, b: string)
    requires |s| == m + |b| && (forall i {:trigger b[i]} :: 0 <= i < |b| ==> s[m + i] == b[i]) && (b == "" || b[0] != '\n')
    requires Collapsed(s, m) == before
    ensures Collapsed(s, |s|) == before + Collapsed(b, |b|)
  {
    RestIsCut(s, m, before, b, |b|);
  }

  /** A run of newlines is cut to two of them; what stands before and behind it is not touched by that. */
  lemma {:induction false} RunsAreCut(a: string, k: nat, b: string)
    requires (a == "" || a[|a| - 1] != '\n') && (b == "" || b[0] != '\n')
    ensures var s := a + Newlines(k) + b;
            Collapsed(s, |s|) == Collapsed(a, |a|) + Newlines(Min(k, 2)) + Collapsed(b, |b|)
  {
    var s, m := a + Newlines(k) + b, |a| + k;
    PartsStand(a, Newlines(k), b, s, m);
    RunIsCut(a, s, k);
    AllIsCut(s, m, Collapsed(a, |a|) + Newlines(Min(k, 2)), b);
  }

  /** Without a newline there is no run to cut. */
  lemma {:induction false} NoNewlineNoCut(s: string, n: nat)
    requires n <= |s| && '\n' !in s
    ensures Collapsed(s, n) == s[..n]
  {
    if n > 0 {
      NoNewlineNoCut(s, n - 1);
      assert s[..n] == s[..n - 1] + [s[n - 1]];
    }
  }

  function Tidied(s: string): string { TrimEnd(Collapsed(s, |s|)) }

  function Extracted(text: string): Extraction
  {
    var ps := PiecesOf(Split(text, '\n'));
    ExtractedFrom(ps)
  }

  function ExtractedFrom(ps: seq<Piece>): Extraction
  {
    var keep := Kept(ps, |ps|);
    Extraction(Tidied(Join(keep, |keep|, '\n')), Refs(ps, |ps|))
  }

  method ExtractAttachmentRefs(text: string) returns (r: Extraction)
    ensures r == Extracted(text)
  {
    var lines := Split(text, '\n');
    ghost var ps := PiecesOf(lines);
    var refs: seq<Ref>, keep: seq<string> := [], [];
    for n := 0 to |lines|
      invariant refs == Refs(ps, n) && keep == Kept(ps, n)
    {
      var m := Match(lines[n]);
      assert ps[n] == Piece(lines[n], m);
      if m.Some? {
        refs := refs + [m.value];
      } else {
        keep := keep + [lines[n]];
      }
    }
    r := Extraction(Tidied(Join(keep, |keep|, '\n')), refs);
  }

  // --- Round trip -----------------------------------------------------------------------

  predicate NoRef(ps: seq<Piece>, n: nat)
    requires n <= |ps|
  {
    forall i :: 0 <= i < n ==> ps[i].found.None?
  }

  predicate NoRefLine(message: string)
  {
    var ps := PiecesOf(Split(message, '\n'));
    NoRef(ps, |ps|)
  }

  predicate NoTripleNewline(s: string, n: nat)
    requires n <= |s|
  {
    forall i :: 0 <= i < n ==> !ThirdNewline(s, i)
  }

  predicate Tidy(s: string) { NoTripleNewline(s, |s|) && (s == "" || !IsSpace(s[|s| - 1])) }

  /** What a caller can check before sending: no line looks like a reference, no run of three
      newlines, no trailing white space. */
  predicate Plain(message: string)
  {
    && NoRefLine(message)
    && Tidy(message)
  }

  function RefsOf(ups: seq<Upload>, n: nat): (r: seq<Ref>)
    requires n <= |ups|
    ensures |r| == n
  {
    if n == 0 then [] else RefsOf(ups, n - 1) + [RefOf(ups[n - 1])]
  }

  function LinesOf(ps: seq<Piece>): (r: seq<string>)
    ensures |r| == |ps|
  {
    seq(|ps|, i requires 0 <= i < |ps| => ps[i].line)
  }

  lemma {:induction false} OfPlain(ps: seq<Piece>, n: nat)
    requires n <= |ps|
    ensures NoRef(ps, n) ==> Refs(ps, n) == [] && Kept(ps, n) == LinesOf(ps)[..n]
    ensures !NoRef(ps, n) ==> Refs(ps, n) != []
  {
    if n > 0 {
      OfPlain(ps, n - 1);
      assert LinesOf(ps)[..n] == LinesOf(ps)[..n - 1] + [ps[n - 1].line];
      assert NoRef(ps, n) <==> NoRef(ps, n - 1) && ps[n - 1].found.None?;
    }
  }

  lemma {:induction false} OfUploads(ps: seq<Piece>, ups: seq<Upload>, n: nat)
    requires n <= |ups| == |ps| && forall i :: 0 <= i < n ==> ps[i].found == Some(RefOf(ups[i]))
    ensures Refs(ps, n) == RefsOf(ups, n) && Kept(ps, n) == []
  {
    if n > 0 {
      OfUploads(ps, ups, n - 1);
    }
  }

  lemma {:induction false} OfAgreeing(a: seq<Piece>, b: seq<Piece>, n: nat)
    requires n <= |a| && n <= |b| && forall i :: 0 <= i < n ==> a[i] == b[i]
    ensures Refs(a, n) == Refs(b, n) && Kept(a, n) == Kept(b, n)
  {
    if n > 0 {
      OfAgreeing(a, b, n - 1);
    }
  }

  lemma OfAppended(a: seq<Piece>, b: seq<Piece>, n: nat)
    requires n <= |b|
    ensures Refs(a + b, |a| + n) == Refs(a, |a|) + Refs(b, n)
    ensures Kept(a + b, |a| + n) == Kept(a, |a|) + Kept(b, n)
  {
    RefsAppended(a, b, n, a + b);
    KeptAppended(a, b, n, a + b);
  }

  lemma {:induction false} RefsAppended(a: seq<Piece>, b: seq<Piece>, n: nat, all: seq<Piece>)
    requires n <= |b| && all == a + b
    ensures Refs(all, |a| + n) == Refs(a, |a|) + Refs(b, n)
  {
    if n == 0 {
      OfAgreeing(all, a, |a|);
      assert Refs(a, |a|) + [] == Refs(a, |a|);
    } else {
      RefsAppended(a, b, n - 1, all);
      assert all[|a| + (n - 1)] == b[n - 1];
    }
  }

  lemma {:induction false} KeptAppended(a: seq<Piece>, b: seq<Piece>, n: nat, all: seq<Piece>)
    requires n <= |b| && all == a + b
    ensures Kept(all, |a| + n) == Kept(a, |a|) + Kept(b, n)
  {
    if n == 0 {
      OfAgreeing(all, a, |a|);
      assert Kept(a, |a|) + [] == Kept(a, |a|);
    } else {
      KeptAppended(a, b, n - 1, all);
      assert all[|a| + (n - 1)] == b[n - 1];
    }
  }

  lemma {:induction false} LineIsSolid(u: Upload)
    requires UploadOk(u) && Solid(u.mime, '\n')
    ensures Solid(AttachmentLine(u), '\n')
  {
    DecimalRoundTrip(u.size);
    var line, d := AttachmentLine(u), Decimal(u.size);
    assert Solid(u.path, '\n') && Solid(d, '\n') && Solid(PREFIX, '\n') && Solid(SUFFIX, '\n');
    SolidAppend(u.path, " (");
    SolidAppend(u.path + " (", u.mime);
    SolidAppend(u.path + " (" + u.mime, ", ");
    SolidAppend(u.path + " (" + u.mime + ", ", d);
    SolidAppend(PREFIX, Body(u.path, u.mime, d));
    SolidAppend(PREFIX + Body(u.path, u.mime, d), SUFFIX);
  }

  lemma SolidAppend(a: string, b: string)
    requires Solid(a, '\n') && Solid(b, '\n')
    ensures Solid(a + b, '\n')
  {
  }

  lemma {:induction false} LinesAt(ups: seq<Upload>, n: nat, i: nat)
    requires i < n <= |ups|
    ensures Lines(ups, n)[i] == AttachmentLine(ups[i])
  {
    if i < n - 1 {
      LinesAt(ups, n - 1, i);
    }
  }

  /** Uploads whose lines read back, one line each. */
  predicate Sendable(u: Upload) { UploadOk(u) && Solid(u.mime, '\n') }

  predicate AllSendable(ups: seq<Upload>) { forall i :: 0 <= i < |ups| ==> Sendable(ups[i]) }

  lemma {:induction false} LineAtIsSolid(ups: seq<Upload>, i: nat)
    requires i < |ups| && AllSendable(ups)
    ensures Solid(Lines(ups, |ups|)[i], '\n')
  {
    LinesAt(ups, |ups|, i);
    assert Sendable(ups[i]);
    LineIsSolid(ups[i]);
  }

  lemma LineAtIsRead(ups: seq<Upload>, i: nat)
    requires i < |ups| && AllSendable(ups)
    ensures PiecesOf(Lines(ups, |ups|))[i].found == Some(RefOf(ups[i]))
  {
    LinesAt(ups, |ups|, i);
    assert Sendable(ups[i]);
    LineRoundTrip(ups[i]);
  }

  lemma {:induction false} SolidLinesSplit(lines: seq<string>, s: string)
    requires lines != [] && (forall i :: 0 <= i < |lines| ==> Solid(lines[i], '\n')) && s == Join(lines, |lines|, '\n')
    ensures Split(s, '\n') == lines
  {
    SplitJoin(lines, |lines|, '\n');
    assert lines[..|lines|] == lines;
  }

  /** Splitting the assembled references gives their lines. */
  lemma {:induction false} LinesAreSplit(ups: seq<Upload>)
    requires ups != [] && AllSendable(ups)
    ensures Split(Join(Lines(ups, |ups|), |ups|, '\n'), '\n') == Lines(ups, |ups|)
  {
    var lines := Lines(ups, |ups|);
    forall i | 0 <= i < |lines|
      ensures Solid(lines[i], '\n')
    {
      LineAtIsSolid(ups, i);
    }
    SolidLinesSplit(lines, Join(lines, |lines|, '\n'));
  }

  lemma LinesAreRead(ups: seq<Upload>)
    requires AllSendable(ups)
    ensures var ps := PiecesOf(Lines(ups, |ups|));
            Refs(ps, |ups|) == RefsOf(ups, |ups|) && Kept(ps, |ups|) == []
  {
    var ps := PiecesOf(Lines(ups, |ups|));
    forall i | 0 <= i < |ups|
      ensures ps[i].found == Some(RefOf(ups[i]))
    {
      LineAtIsRead(ups, i);
    }
    OfUploads(ps, ups, |ups|);
  }

  lemma {:induction false} CollapsedIff(s: string, n: nat)
    requires n <= |s|
    ensures NoTripleNewline(s, n) ==> Collapsed(s, n) == s[..n]
    ensures !NoTripleNewline(s, n) ==> |Collapsed(s, n)| < n
  {
    if n > 0 {
      CollapsedIff(s, n - 1);
      assert s[..n] == s[..n - 1] + [s[n - 1]];
      assert NoTripleNewline(s, n) <==> NoTripleNewline(s, n - 1) && !ThirdNewline(s, n - 1);
    }
  }

  lemma {:induction false} CollapsedKeepsLastNewline(s: string, n: nat)
    requires 0 < n <= |s| && s[n - 1] == '\n'
    ensures var r := Collapsed(s, n); r != "" && r[|r| - 1] == '\n'
  {
    if ThirdNewline(s, n - 1) {
      CollapsedKeepsLastNewline(s, n - 1);
    }
  }

  /** A message without references is read back as it is exactly when it is tidy. */
  lemma {:induction false} TidiedIff(s: string)
    ensures Tidied(s) == s <==> Tidy(s)
  {
    CollapsedIff(s, |s|);
    assert s[..|s|] == s;
    TrimEndFixpoint(s);
  }

  lemma TidiedWithNewline(s: string)
    requires s != ""
    ensures Tidied(s + "\n") == s <==> Tidy(s)
  {
    var t := s + "\n";
    CollapsedIff(t, |t|);
    CollapsedKeepsLastNewline(t, |t|);
    TrimEndFixpoint(Collapsed(t, |t|));
    TriplesWithNewline(s);
    assert t[..|t|] == t;
    if NoTripleNewline(s, |s|) && !IsSpace(s[|s| - 1]) {
      assert TrimmedLength(t, |t|) == TrimmedLength(t, |s|) == |s|;
      assert t[..|s|] == s;
    }
    if Tidied(t) == s {
      assert NoTripleNewline(t, |t|);
    }
  }

  lemma TriplesWithNewline(s: string)
    requires s != ""
    ensures NoTripleNewline(s + "\n", |s| + 1) ==> NoTripleNewline(s, |s|)
    ensures NoTripleNewline(s, |s|) && !IsSpace(s[|s| - 1]) ==> NoTripleNewline(s + "\n", |s| + 1)
  {
    var t := s + "\n";
    assert forall i :: 0 <= i < |s| ==> (ThirdNewline(s, i) <==> ThirdNewline(t, i));
  }

  lemma BlankLineBetween(a: string, b: string)
    ensures var t := a + "\n\n" + b;
            Split(t, '\n') == Split(a, '\n') + [""] + Split(b, '\n')
  {
    var head := a + "\n";
    SplitAppend(head, a, "", '\n');
    SplitAppend(a + "\n\n" + b, head, b, '\n');
  }

  /** The lines of a message with references: the user's, one blank, one for each upload. */
  lemma {:induction false} AssembledLines(message: string, ups: seq<Upload>)
    requires message != "" && ups != [] && AllSendable(ups)
    ensures var t := Assembled(message, ups);
            Split(t, '\n') == Split(message, '\n') + [""] + Lines(ups, |ups|)
  {
    LinesAreSplit(ups);
    BlankLineBetween(message, Join(Lines(ups, |ups|), |ups|, '\n'));
  }

  lemma BlankIsKept()
    ensures Match("").None?
  {
  }

  lemma PiecesAppend(a: seq<string>, b: seq<string>)
    ensures PiecesOf(a + b) == PiecesOf(a) + PiecesOf(b)
  {
  }

  lemma ThreeParts(lines: seq<string>, a: seq<string>, b: seq<string>)
    requires lines == a + [""] + b
    ensures PiecesOf(lines) == PiecesOf(a) + [Piece("", None)] + PiecesOf(b)
  {
    BlankIsKept();
    PiecesAppend(a, [""]);
    PiecesAppend(a + [""], b);
    assert PiecesOf([""]) == [Piece("", None)];
  }

  /** What is read back from the three parts of a message with references. */
  lemma OfThreeParts(a: seq<Piece>, ups: seq<Upload>, b: seq<Piece>)
    requires |b| == |ups| && Refs(b, |b|) == RefsOf(ups, |ups|) && Kept(b, |b|) == []
    ensures var ps := a + [Piece("", None)] + b;
            && Refs(ps, |ps|) == Refs(a, |a|) + RefsOf(ups, |ups|)
            && Kept(ps, |ps|) == Kept(a, |a|) + [""]
  {
    var blank := [Piece("", None)];
    assert Refs(blank, 0) == [] && Kept(blank, 0) == [];
    OfAppended(a, blank, 1);
    OfAppended(a + blank, b, |b|);
    assert Refs(a, |a|) + [] == Refs(a, |a|);
    assert Kept(a, |a|) + [""] + [] == Kept(a, |a|) + [""];
  }

  lemma ExtractedFromParts(lines: seq<string>, a: seq<string>, ups: seq<Upload>)
    requires AllSendable(ups) && lines == a + [""] + Lines(ups, |ups|)
    ensures var ps := PiecesOf(a);
            var keep := Kept(ps, |ps|) + [""];
            ExtractedFrom(PiecesOf(lines)) ==
              Extraction(Tidied(Join(keep, |keep|, '\n')), Refs(ps, |ps|) + RefsOf(ups, |ups|))
  {
    LinesAreRead(ups);
    ThreeParts(lines, a, Lines(ups, |ups|));
    OfThreeParts(PiecesOf(a), ups, PiecesOf(Lines(ups, |ups|)));
  }

  lemma AssembledPieces(message: string, ups: seq<Upload>)
    requires message != "" && ups != [] && AllSendable(ups)
    ensures var a := PiecesOf(Split(message, '\n'));
            var keep := Kept(a, |a|) + [""];
            Extracted(Assembled(message, ups)) ==
              Extraction(Tidied(Join(keep, |keep|, '\n')), Refs(a, |a|) + RefsOf(ups, |ups|))
  {
    var lines, whole := Split(message, '\n'), Split(Assembled(message, ups), '\n');
    AssembledLines(message, ups);
    ExtractedFromParts(whole, lines, ups);
  }

  lemma OfMessage(message: string)
    ensures var ps := PiecesOf(Split(message, '\n'));
            && (NoRefLine(message) ==> Refs(ps, |ps|) == [] && Kept(ps, |ps|) == Split(message, '\n'))
            && (!NoRefLine(message) ==> Refs(ps, |ps|) != [])
  {
    var lines := Split(message, '\n');
    var ps := PiecesOf(lines);
    OfPlain(ps, |ps|);
    assert LinesOf(ps)[..|ps|] == lines;
  }

  lemma MessageAlone(message: string)
    ensures Extracted(message) == Extraction(message, []) <==> Plain(message)
  {
    OfMessage(message);
    JoinSplit(message, '\n');
    TidiedIff(message);
  }

  lemma BlankLineJoins(message: string)
    ensures var keep := Split(message, '\n') + [""];
            Join(keep, |keep|, '\n') == message + "\n"
  {
    JoinSplit(message, '\n');
    JoinSnoc(Split(message, '\n'), "", '\n');
    assert message + ['\n'] + "" == message + "\n";
  }

  lemma SameExtraction(text: string, refs: seq<Ref>, message: string, expected: seq<Ref>)
    ensures Extraction(text, refs + expected) == Extraction(message, expected) <==> text == message && refs == []
  {
    assert refs == [] ==> refs + expected == expected;
    assert |refs + expected| == |refs| + |expected|;
  }

  lemma {:induction false} MessageWithUploads(message: string, ups: seq<Upload>)
    requires message != "" && ups != [] && AllSendable(ups)
    ensures Extracted(Assembled(message, ups)) == Extraction(message, RefsOf(ups, |ups|)) <==> Plain(message)
  {
    var a := PiecesOf(Split(message, '\n'));
    var keep := Kept(a, |a|) + [""];
    AssembledPieces(message, ups);
    SameExtraction(Tidied(Join(keep, |keep|, '\n')), Refs(a, |a|), message, RefsOf(ups, |ups|));
    OfMessage(message);
    if NoRefLine(message) {
      BlankLineJoins(message);
      TidiedWithNewline(message);
    }
  }

  lemma NothingIsPlain()
    ensures Plain("")
  {
    BlankIsKept();
    assert Split("", '\n') == [""];
  }

  lemma {:induction false} NothingButReferences(ups: seq<Upload>)
    requires ups != [] && AllSendable(ups)
    ensures Extracted(Assembled("", ups)) == Extraction("", RefsOf(ups, |ups|))
  {
    LinesAreSplit(ups);
    LinesAreRead(ups);
    TidiedIff("");
  }

  /** Taking the references out of an assembled message gives back the message and every upload,
      exactly for the messages that are plain. */
  lemma {:induction false} AssembledComesBack(message: string, ups: seq<Upload>)
    requires AllSendable(ups)
    ensures Extracted(Assembled(message, ups)) == Extraction(message, RefsOf(ups, |ups|)) <==> Plain(message)
  {
    if ups == [] {
      MessageAlone(message);
    } else if message == "" {
      NothingIsPlain();
      NothingButReferences(ups);
    } else {
      MessageWithUploads(message, ups);
    }
  }
}
