/**
 Finding the last message of a session from the end of its file (internal/sessions/turnstate.go).
 */
module TurnState {
  import opened Prelude
  import opened Text

  /** How much of the file's end is read. */
  const TAIL_BYTES: nat := 64 * 1024

  datatype Message = Message(role: string, stopReason: string)

  /** What decoding a trimmed line gives: a message, if it is a message entry with a role. */
  type Decoder = string -> Option<Message>

  function Decoded(decode: Decoder, line: string): Option<Message>
  {
    var t := Trim(line);
    if t == "" then None else decode(t)
  }

  /** The last message among the first `n` lines. */
  function LastMessage(decode: Decoder, lines: seq<string>, n: nat): Option<Message>
    requires n <= |lines|
  {
    if n == 0 then None
    else
      var m := Decoded(decode, lines[n - 1]);
      if m.Some? then m else LastMessage(decode, lines, n - 1)
  }

  /** The lines that are looked at: those of the file's end, without the first, which may be cut. */
  function TailLines(file: string, start: nat): seq<string>
    requires start <= |file|
  {
    var lines := Split(file[start..], '\n');
    if start > 0 then lines[1..] else lines
  }

  function TailStart(size: nat): nat { if size > TAIL_BYTES then size - TAIL_BYTES else 0 }

  method ReadLastTurnState(decode: Decoder, file: string) returns (r: Option<Message>)
    ensures var lines := TailLines(file, TailStart(|file|)); r == LastMessage(decode, lines, |lines|)
  {
    var start := 0;
    if |file| > TAIL_BYTES {
      start := |file| - TAIL_BYTES;
    }
    var lines := Split(file[start..], '\n');
    if start > 0 {
      lines := lines[1..];
    }
    assert lines == TailLines(file, TailStart(|file|));
    r := LastOf(decode, lines);
  }

  method LastOf(decode: Decoder, lines: seq<string>) returns (r: Option<Message>)
    ensures r == LastMessage(decode, lines, |lines|)
  {
    var i := |lines|;
    while i > 0
      invariant 0 <= i <= |lines|
      invariant LastMessage(decode, lines, |lines|) == LastMessage(decode, lines, i)
    {
      i := i - 1;
      var line := Trim(lines[i]);
      if line == "" {
        continue;
      }
      var m := decode(line);
      if m.Some? {
        return m;
      }
    }
    r := None;
  }

  /** Cutting a text in two: the piece at the cut runs from one part into the other. */
  function Joined(p: Pieces, q: Pieces): Pieces
  {
    if q.done == [] then Pieces(p.done, p.last + q.last)
    else Pieces(p.done + [p.last + q.done[0]] + q.done[1..], q.last)
  }

  lemma JoinedRead(p: Pieces, q: Pieces, c: char, sep: char)
    ensures Joined(p, q.Read(c, sep)) == Joined(p, q).Read(c, sep)
  {
    if c == sep {
      if q.done == [] {
        assert p.done + [p.last + q.last] + [] == p.done + [p.last + q.last];
      } else {
        assert (q.done + [q.last])[1..] == q.done[1..] + [q.last];
        assert p.done + [p.last + q.done[0]] + (q.done[1..] + [q.last]) == p.done + [p.last + q.done[0]] + q.done[1..] + [q.last];
      }
    } else {
      assert p.last + (q.last + [c]) == p.last + q.last + [c];
    }
  }

  lemma {:induction false} CutConcat(s: string, k: nat, n: nat, sep: char)
    requires k + n <= |s|
    ensures Cut(s, k + n, sep) == Joined(Cut(s, k, sep), Cut(s[k..], n, sep))
  {
    if n == 0 {
      assert Cut(s, k, sep).last + "" == Cut(s, k, sep).last;
    } else {
      CutConcat(s, k, n - 1, sep);
      JoinedRead(Cut(s, k, sep), Cut(s[k..], n - 1, sep), s[k + (n - 1)], sep);
      assert s[k..][n - 1] == s[k + (n - 1)];
    }
  }

  /** The lines of the tail, the first dropped, are the last lines of the file. */
  lemma {:induction false} TailLinesEndTheFile(file: string, start: nat)
    requires start <= |file|
    ensures var all, tail := Split(file, '\n'), TailLines(file, start);
            |tail| <= |all| && all[|all| - |tail|..] == tail
  {
    if start == 0 {
      assert file[0..] == file;
    } else {
      var p, q := Cut(file, start, '\n'), Cut(file[start..], |file| - start, '\n');
      CutConcat(file, start, |file| - start, '\n');
      var all, tail := Split(file, '\n'), TailLines(file, start);
      assert all == Joined(p, q).All() && tail == q.All()[1..];
      if q.done != [] {
        assert q.All()[1..] == q.done[1..] + [q.last];
        assert all == p.done + [p.last + q.done[0]] + (q.done[1..] + [q.last]);
      }
    }
  }

  lemma {:induction false} LastMessageOfSuffix(decode: Decoder, all: seq<string>, tail: seq<string>, n: nat)
    requires n <= |tail| <= |all| && all[|all| - |tail|..] == tail
    ensures LastMessage(decode, all, |all| - |tail| + n) ==
              if LastMessage(decode, tail, n).Some? then LastMessage(decode, tail, n)
              else LastMessage(decode, all, |all| - |tail|)
  {
    if n > 0 {
      LastMessageOfSuffix(decode, all, tail, n - 1);
      assert all[|all| - |tail| + (n - 1)] == all[|all| - |tail|..][n - 1];
    }
  }

  /** A message found in the tail is the last message of the whole file; reading the tail misses it
      exactly when all the file's messages stand before the tail's whole lines. */
  lemma {:induction false} TailFindsTheLastMessage(decode: Decoder, file: string, start: nat)
    requires start <= |file|
    ensures var all, tail := Split(file, '\n'), TailLines(file, start);
            var last, found := LastMessage(decode, all, |all|), LastMessage(decode, tail, |tail|);
            && |tail| <= |all|
            && (found.Some? ==> found == last)
            && (found != last <==> found.None? && LastMessage(decode, all, |all| - |tail|).Some?)
  {
    var all, tail := Split(file, '\n'), TailLines(file, start);
    TailLinesEndTheFile(file, start);
    LastMessageOfSuffix(decode, all, tail, |tail|);
  }

  lemma DecodedIff(decode: Decoder, line: string)
    ensures Decoded(decode, line).Some? <==> Speaks(decode, line)
    ensures Speaks(decode, line) ==> Decoded(decode, line) == decode(Trim(line))
  {
  }

  lemma {:induction false} LastDecodes(decode: Decoder, lines: seq<string>, n: nat, i: nat)
    requires i < n <= |lines| && IsLast(decode, lines, n, i)
    ensures LastMessage(decode, lines, n) == Decoded(decode, lines[i])
    decreases n
  {
    DecodedIff(decode, lines[n - 1]);
    if i < n - 1 {
      LastDecodes(decode, lines, n - 1, i);
    }
  }

  lemma {:induction false} NoneDecodes(decode: Decoder, lines: seq<string>, n: nat)
    requires n <= |lines|
    ensures (forall j :: 0 <= j < n ==> !Speaks(decode, lines[j])) <==> LastMessage(decode, lines, n) == None
  {
    if n > 0 {
      NoneDecodes(decode, lines, n - 1);
      DecodedIff(decode, lines[n - 1]);
    }
  }

  predicate IsLast(decode: Decoder, lines: seq<string>, n: nat, i: nat)
    requires i < n <= |lines|
  {
    Speaks(decode, lines[i]) && forall j :: i < j < n ==> !Speaks(decode, lines[j])
  }

  /** The last line, not blank, that decodes to a message decides; without one there is none. */
  lemma {:induction false} LastLineDecides(decode: Decoder, lines: seq<string>)
    ensures var last := LastMessage(decode, lines, |lines|);
            && (forall i :: 0 <= i < |lines| && IsLast(decode, lines, |lines|, i) ==> last == decode(Trim(lines[i])))
            && ((forall j :: 0 <= j < |lines| ==> !Speaks(decode, lines[j])) <==> last == None)
  {
    NoneDecodes(decode, lines, |lines|);
    forall i | 0 <= i < |lines| && IsLast(decode, lines, |lines|, i)
      ensures LastMessage(decode, lines, |lines|) == decode(Trim(lines[i]))
    {
      LastDecodes(decode, lines, |lines|, i);
      DecodedIff(decode, lines[i]);
    }
  }

  predicate Speaks(decode: Decoder, line: string) { Trim(line) != "" && decode(Trim(line)).Some? }

  /** Whatever stands before, what follows a line break fewer than 65536 characters from the end is read whole: a
      message in it is found. */
  lemma {:induction false} RecentMessageIsFound(decode: Decoder, file: string, head: string, recent: string)
    requires file == head + ['\n'] + recent && |recent| < 65536
    requires var lines := Split(recent, '\n'); LastMessage(decode, lines, |lines|).Some?
    ensures var tail, lines := TailLines(file, TailStart(|file|)), Split(recent, '\n');
            LastMessage(decode, tail, |tail|) == LastMessage(decode, lines, |lines|)
  {
    var start := TailStart(|file|);
    var cut, lines := Split(file[start..], '\n'), Split(recent, '\n');
    assert file[start..] == head[start..] + ['\n'] + recent;
    SplitAppend(file[start..], head[start..], recent, '\n');
    var tail := TailLines(file, start);
    assert tail[|tail| - |lines|..] == lines;
    LastMessageOfSuffix(decode, tail, lines, |lines|);
  }

  /** A file of at most 65536 characters is read whole. */
  lemma {:induction false} ShortFilesAreReadWhole(decode: Decoder, file: string)
    ensures |file| <= 65536 ==> TailLines(file, TailStart(|file|)) == Split(file, '\n')
    ensures |file| > 65536 ==> TailLines(file, TailStart(|file|)) == Split(file[|file| - 65536..], '\n')[1..]
  {
    assert file[0..] == file;
  }
}
