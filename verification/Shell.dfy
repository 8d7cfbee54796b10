/**
 Reading plain `mv`, `git mv` and `rm` out of a shell command (tokenizeShell and parseFileOps
 in web/src/session/artifacts/artifact-registry.js).
 */
module Shell {
  import opened Prelude
  import opened Text

  datatype FileOp = Remove(path: string) | Move(from: string, to: string)

  /** The tokenizer's variables; `quote` is the quote character inside one, a space outside. */
  datatype Scan = Scan(tokens: seq<string>, cur: string, quote: char, started: bool)

  const QUOTES: set<char> := {'"', '\''}

  function Scanned(sc: Scan, ch: char): Scan
  {
    if sc.quote in QUOTES then
      if ch == sc.quote then sc.(quote := ' ') else sc.(cur := sc.cur + [ch])
    else if ch in QUOTES then sc.(quote := ch, started := true)
    else if ch == ' ' || ch == '\t' then
      if sc.started then sc.(tokens := sc.tokens + [sc.cur], cur := "", started := false) else sc
    else sc.(cur := sc.cur + [ch], started := true)
  }

  const START := Scan([], "", ' ', false)

  /** Scanning on from a state, over the first `n` characters. */
  function ScanOn(sc: Scan, s: string, n: nat): Scan
    requires n <= |s|
  {
    if n == 0 then sc else Scanned(ScanOn(sc, s, n - 1), s[n - 1])
  }

  /** None when a quote is left open. */
  function Finished(sc: Scan): Option<seq<string>>
  {
    if sc.quote in QUOTES then None else Some(if sc.started then sc.tokens + [sc.cur] else sc.tokens)
  }

  function Tokens(s: string): Option<seq<string>> { Finished(ScanOn(START, s, |s|)) }

  method TokenizeShell(s: string) returns (r: Option<seq<string>>)
    ensures r == Tokens(s)
  {
    var tokens: seq<string>, cur, quote, started := [], "", ' ', false;
    for i := 0 to |s|
      invariant Scan(tokens, cur, quote, started) == ScanOn(START, s, i)
    {
      var ch := s[i];
      if quote in QUOTES {
        if ch == quote {
          quote := ' ';
        } else {
          cur := cur + [ch];
        }
      } else if ch in QUOTES {
        quote, started := ch, true;
      } else if ch == ' ' || ch == '\t' {
        if started {
          tokens, cur, started := tokens + [cur], "", false;
        }
      } else {
        cur, started := cur + [ch], true;
      }
    }
    if quote in QUOTES {
      return None;
    }
    if started {
      tokens := tokens + [cur];
    }
    r := Some(tokens);
  }

  // --- How commands are written ----------------------------------------------------------

  /** A stretch of a word as it is written: bare, in single quotes or in double quotes. */
  datatype Piece = Bare(text: string) | Single(text: string) | Double(text: string)
  {
    predicate Ok()
    {
      match this
      case Bare(t) => t != "" && forall i :: 0 <= i < |t| ==> !IsBlank(t[i]) && t[i] !in QUOTES
      case Single(t) => '\'' !in t
      case Double(t) => '"' !in t
    }

    function Written(): string
    {
      match this case Bare(t) => t case Single(t) => "'" + t + "'" case Double(t) => "\"" + t + "\""
    }
  }

  predicate IsBlank(c: char) { c == ' ' || c == '\t' }

  predicate Blank(s: string) { forall i :: 0 <= i < |s| ==> IsBlank(s[i]) }

  /** A word is one or more pieces without anything between them. */
  type Word = seq<Piece>

  predicate WordOk(w: Word) { w != [] && forall i :: 0 <= i < |w| ==> w[i].Ok() }

  function TextOf(w: Word, n: nat): string
    requires n <= |w|
  {
    if n == 0 then "" else TextOf(w, n - 1) + w[n - 1].text
  }

  function WrittenWord(w: Word, n: nat): string
    requires n <= |w|
  {
    if n == 0 then "" else WrittenWord(w, n - 1) + w[n - 1].Written()
  }

  /** A command: words with blanks before each, at least one but before the first, and after the last. */
  datatype Command = Command(words: seq<Word>, gaps: seq<string>)
  {
    predicate Ok()
    {
      && words != [] && |gaps| == |words| + 1
      && (forall i :: 0 <= i < |words| ==> WordOk(words[i]))
      && (forall i :: 0 <= i < |gaps| ==> Blank(gaps[i]))
      && (forall i :: 0 < i < |words| ==> gaps[i] != "")
    }

    function Upto(n: nat): string
      requires n <= |words| && n <= |gaps|
    {
      if n == 0 then "" else Upto(n - 1) + gaps[n - 1] + WrittenWord(words[n - 1], |words[n - 1]|)
    }

    function Written(): string
      requires |gaps| == |words| + 1
    {
      Upto(|words|) + gaps[|words|]
    }

    function Texts(): (r: seq<string>)
      ensures |r| == |words|
    {
      seq(|words|, i requires 0 <= i < |words| => TextOf(words[i], |words[i]|))
    }
  }

  // --- Reading what was written -----------------------------------------------------------

  lemma {:induction false} ScanPrefix(sc: Scan, a: string, b: string, n: nat)
    requires n <= |a|
    ensures ScanOn(sc, a + b, n) == ScanOn(sc, a, n)
  {
    if n > 0 {
      ScanPrefix(sc, a, b, n - 1);
    }
  }

  lemma {:induction false} ScanAppend(sc: Scan, a: string, b: string, n: nat)
    requires n <= |b|
    ensures ScanOn(sc, a + b, |a| + n) == ScanOn(ScanOn(sc, a, |a|), b, n)
  {
    if n > 0 {
      ScanAppend(sc, a, b, n - 1);
      assert (a + b)[|a| + (n - 1)] == b[n - 1];
    } else {
      ScanPrefix(sc, a, b, |a|);
    }
  }

  /** Reading the text takes the scan from one state to the other. */
  predicate Reads(sc: Scan, s: string, after: Scan) { ScanOn(sc, s, |s|) == after }

  lemma {:induction false} ReadsOn(sc: Scan, a: string, mid: Scan, b: string, after: Scan)
    requires Reads(sc, a, mid) && Reads(mid, b, after)
    ensures Reads(sc, a + b, after)
  {
    ScanAppend(sc, a, b, |b|);
  }

  lemma {:induction false} ScanBare(sc: Scan, t: string, n: nat)
    requires n <= |t| && Bare(t).Ok() && sc.quote == ' '
    ensures ScanOn(sc, t, n) == sc.(cur := sc.cur + t[..n], started := sc.started || n > 0)
  {
    if n > 0 {
      ScanBare(sc, t, n - 1);
      assert t[..n] == t[..n - 1] + [t[n - 1]];
      assert sc.cur + t[..n] == sc.cur + t[..n - 1] + [t[n - 1]];
    } else {
      assert sc.cur + t[..0] == sc.cur;
    }
  }

  /** Inside a quote every other character is kept. */
  lemma {:induction false} ScanInside(sc: Scan, t: string, n: nat)
    requires n <= |t| && sc.quote in QUOTES && sc.quote !in t
    ensures ScanOn(sc, t, n) == sc.(cur := sc.cur + t[..n])
  {
    if n > 0 {
      ScanInside(sc, t, n - 1);
      assert t[..n] == t[..n - 1] + [t[n - 1]];
      assert sc.cur + t[..n] == sc.cur + t[..n - 1] + [t[n - 1]];
    } else {
      assert sc.cur + t[..0] == sc.cur;
    }
  }

  lemma {:induction false} ReadsOne(sc: Scan, c: char)
    ensures Reads(sc, [c], Scanned(sc, c))
  {
    assert ScanOn(sc, [c], 0) == sc;
  }

  lemma {:induction false} ReadsInside(sc: Scan, t: string)
    requires sc.quote in QUOTES && sc.quote !in t
    ensures Reads(sc, t, sc.(cur := sc.cur + t))
  {
    ScanInside(sc, t, |t|);
    assert t[..|t|] == t;
  }

  /** A quote outside quotes opens one, the same quote closes it. */
  lemma {:induction false} ReadsQuoted(sc: Scan, q: char, t: string)
    requires sc.quote == ' ' && q in QUOTES && q !in t
    ensures Reads(sc, [q] + t + [q], sc.(cur := sc.cur + t, started := true))
  {
    var open := sc.(quote := q, started := true);
    var read := open.(cur := open.cur + t);
    ReadsOne(sc, q);
    ReadsInside(open, t);
    ReadsOn(sc, [q], open, t, read);
    ReadsOne(read, q);
    ReadsOn(sc, [q] + t, read, [q], read.(quote := ' '));
  }

  /** What a scan outside quotes becomes by some text of a word. */
  function Grown(sc: Scan, t: string): Scan { sc.(cur := sc.cur + t, started := true) }

  lemma {:induction false} ReadsPiece(sc: Scan, p: Piece)
    requires sc.quote == ' ' && p.Ok()
    ensures Reads(sc, p.Written(), Grown(sc, p.text))
  {
    match p
    case Bare(t) =>
      ScanBare(sc, t, |t|);
      assert t[..|t|] == t;
    case Single(t) => ReadsQuoted(sc, '\'', t);
    case Double(t) => ReadsQuoted(sc, '"', t);
  }

  lemma {:induction false} GrownTwice(sc: Scan, a: string, b: string)
    ensures Grown(Grown(sc, a), b) == Grown(sc, a + b)
  {
    assert sc.cur + a + b == sc.cur + (a + b);
  }

  lemma {:induction false} ReadsWord(sc: Scan, w: Word, n: nat)
    requires sc.quote == ' ' && 0 < n <= |w| && WordOk(w)
    ensures Reads(sc, WrittenWord(w, n), Grown(sc, TextOf(w, n)))
  {
    var p := w[n - 1];
    if n == 1 {
      ReadsPiece(sc, p);
      OnePiece(w);
    } else {
      var mid := Grown(sc, TextOf(w, n - 1));
      ReadsWord(sc, w, n - 1);
      ReadsPiece(mid, p);
      ReadsOn(sc, WrittenWord(w, n - 1), mid, p.Written(), Grown(mid, p.text));
      GrownTwice(sc, TextOf(w, n - 1), p.text);
    }
  }

  lemma {:induction false} OnePiece(w: Word)
    requires w != []
    ensures WrittenWord(w, 1) == w[0].Written() && TextOf(w, 1) == w[0].text
  {
    assert WrittenWord(w, 0) == "" && TextOf(w, 0) == "";
  }

  /** What a scan becomes by blanks: a word that was begun is complete. */
  function Ended(sc: Scan): Scan
  {
    if sc.started then Scan(sc.tokens + [sc.cur], "", sc.quote, false) else sc
  }

  lemma {:induction false} ScanBlanks(sc: Scan, g: string, n: nat)
    requires sc.quote == ' ' && n <= |g| && Blank(g)
    ensures ScanOn(sc, g, n) == if n > 0 then Ended(sc) else sc
  {
    if n > 0 {
      ScanBlanks(sc, g, n - 1);
    }
  }

  lemma {:induction false} ReadsGap(sc: Scan, g: string)
    requires sc.quote == ' ' && Blank(g) && (g != "" || !sc.started)
    ensures Reads(sc, g, Ended(sc))
  {
    ScanBlanks(sc, g, |g|);
  }

  /** The scan after `n` words: all but the last are complete. */
  function AfterWords(texts: seq<string>, n: nat): Scan
    requires n <= |texts|
  {
    if n == 0 then START else Scan(texts[..n - 1], texts[n - 1], ' ', true)
  }

  lemma {:induction false} NextWord(texts: seq<string>, n: nat)
    requires 0 < n <= |texts|
    ensures Grown(Ended(AfterWords(texts, n - 1)), texts[n - 1]) == AfterWords(texts, n)
  {
    assert "" + texts[n - 1] == texts[n - 1];
    if n > 1 {
      assert texts[..n - 1] == texts[..n - 2] + [texts[n - 2]];
    }
  }

  lemma {:induction false} ReadsCommand(c: Command, n: nat)
    requires c.Ok() && n <= |c.words|
    ensures Reads(START, c.Upto(n), AfterWords(c.Texts(), n))
  {
    if n > 0 {
      var w, sc := c.words[n - 1], AfterWords(c.Texts(), n - 1);
      ReadsCommand(c, n - 1);
      assert Blank(c.gaps[n - 1]) && WordOk(w);
      ReadsGap(sc, c.gaps[n - 1]);
      ReadsOn(START, c.Upto(n - 1), sc, c.gaps[n - 1], Ended(sc));
      ReadsWord(Ended(sc), w, |w|);
      ReadsOn(START, c.Upto(n - 1) + c.gaps[n - 1], Ended(sc), WrittenWord(w, |w|), Grown(Ended(sc), c.Texts()[n - 1]));
      NextWord(c.Texts(), n);
    }
  }

  lemma {:induction false} ReadsWritten(c: Command) returns (sc: Scan)
    requires c.Ok()
    ensures Reads(START, c.Written(), sc) && sc.quote == ' ' && Finished(sc) == Some(c.Texts())
  {
    var n, last := |c.words|, AfterWords(c.Texts(), |c.words|);
    ReadsCommand(c, n);
    assert Blank(c.gaps[n]) && c.Texts()[..n - 1] + [c.Texts()[n - 1]] == c.Texts();
    if c.gaps[n] == "" {
      sc := last;
      assert c.Written() == c.Upto(n);
    } else {
      sc := Ended(last);
      ReadsGap(last, c.gaps[n]);
      ReadsOn(START, c.Upto(n), last, c.gaps[n], sc);
    }
  }

  /** Round trip: however its words are written, bare, in either quotes or mixed, and whatever blanks stand
      between and around them, a command is read back as the texts of its words. */
  lemma {:induction false} WrittenWordsComeBack(c: Command)
    requires c.Ok()
    ensures Tokens(c.Written()) == Some(c.Texts())
  {
    var sc := ReadsWritten(c);
  }

  /** A quote left open, after a command or at the end of its last word, gives no tokens. */
  lemma {:induction false} OpenQuoteIsNothing(c: Command, q: char, rest: string)
    requires c.Ok() && q in QUOTES && q !in rest
    ensures Tokens(c.Written() + ([q] + rest)) == None
  {
    var sc := ReadsWritten(c);
    var open := sc.(quote := q, started := true);
    ReadsOne(sc, q);
    ReadsInside(open, rest);
    ReadsOn(sc, [q], open, rest, open.(cur := open.cur + rest));
    ReadsOn(START, c.Written(), sc, [q] + rest, open.(cur := open.cur + rest));
  }

  // --- File operations -------------------------------------------------------------

  const UNSAFE: set<char> := {'|', '&', ';', '<', '>', '$', '`', '*', '?', '(', ')', '{', '}', '\n'}

  predicate IsSlash(c: char) { c == '/' || c == '\\' }

  /** Where the part after the last slash of the first `n` characters begins. */
  function AfterSlash(path: string, n: nat): (r: nat)
    requires n <= |path|
    ensures r <= n
  {
    if n == 0 || IsSlash(path[n - 1]) then n else AfterSlash(path, n - 1)
  }

  /** The part after the last slash holds no slash, and a slash precedes it. */
  lemma {:induction false} AfterSlashIsLast(path: string, n: nat)
    requires n <= |path|
    ensures var r := AfterSlash(path, n);
            (r > 0 ==> IsSlash(path[r - 1])) && forall i :: r <= i < n ==> !IsSlash(path[i])
  {
    if n > 0 && !IsSlash(path[n - 1]) {
      AfterSlashIsLast(path, n - 1);
    }
  }

  function Basename(path: string): string
  {
    var base := path[AfterSlash(path, |path|)..];
    if base == "" then path else base
  }

  predicate Flag(t: string) { t != "" && t[0] == '-' }

  function Args(ts: seq<string>, n: nat): (r: seq<string>)
    requires n <= |ts|
    ensures forall t :: t in r ==> !Flag(t)
  {
    if n == 0 then [] else Args(ts, n - 1) + if Flag(ts[n - 1]) then [] else [ts[n - 1]]
  }

  function Removals(paths: seq<string>): seq<FileOp>
  {
    seq(|paths|, i requires 0 <= i < |paths| => Remove(paths[i]))
  }

  function MovesInto(srcs: seq<string>, dir: string): seq<FileOp>
  {
    seq(|srcs|, i requires 0 <= i < |srcs| => Move(srcs[i], dir + Basename(srcs[i])))
  }

  function MoveOps(paths: seq<string>): seq<FileOp>
  {
    if |paths| < 2 then []
    else
      var dst, srcs := paths[|paths| - 1], paths[..|paths| - 1];
      if dst != "" && dst[|dst| - 1] == '/' then MovesInto(srcs, dst)
      else if |srcs| == 1 then [Move(srcs[0], dst)]
      else []
  }

  /** The operations of a tokenized command: verb, then arguments that are not flags. */
  function OpsOf(tokens: seq<string>): seq<FileOp>
  {
    if |tokens| < 2 then []
    else
      var gitMv := tokens[0] == "git" && tokens[1] == "mv";
      var verb := if gitMv then "mv" else tokens[0];
      var rest := tokens[if gitMv then 2 else 1..];
      var args := Args(rest, |rest|);
      if verb == "rm" then Removals(args) else if verb == "mv" then MoveOps(args) else []
  }

  function FileOps(command: string): seq<FileOp>
  {
    var trimmed := Trim(command);
    if trimmed == "" || exists i :: 0 <= i < |trimmed| && trimmed[i] in UNSAFE then []
    else match Tokens(trimmed) case None => [] case Some(tokens) => OpsOf(tokens)
  }

  method ParseFileOps(command: string) returns (ops: seq<FileOp>)
    ensures ops == FileOps(command)
  {
    var trimmed := Trim(command);
    if trimmed == "" || exists i :: 0 <= i < |trimmed| && trimmed[i] in UNSAFE {
      return [];
    }
    var tokens := TokenizeShell(trimmed);
    ops := if tokens.None? then [] else OpsOf(tokens.value);
  }

  /** The name behind the last slash, and the whole path when nothing stands there. */
  lemma {:induction false} BasenameIs(dir: string, name: string)
    requires (dir == "" || dir[|dir| - 1] in {'/', '\\'}) && forall i :: 0 <= i < |name| ==> name[i] != '/' && name[i] != '\\'
    ensures Basename(dir + name) == if name == "" then dir else name
  {
    var path := dir + name;
    AfterSlashIsLast(path, |path|);
    assert dir != "" ==> path[|dir| - 1] == dir[|dir| - 1];
    assert forall i :: |dir| <= i < |path| ==> path[i] == name[i - |dir|];
    assert AfterSlash(path, |path|) == |dir|;
    assert path[|dir|..] == name;
  }

  // --- From the command text to its operations ---------------------------------------

  predicate Safe(s: string) { forall i :: 0 <= i < |s| ==> s[i] !in UNSAFE }

  /** A piece of a command that is read at all; a bare one holds no white space of any kind. */
  predicate PieceSafe(p: Piece) { Safe(p.text) && (p.Bare? ==> NoSpace(p.text)) }

  predicate WordSafe(w: Word) { forall i :: 0 <= i < |w| ==> PieceSafe(w[i]) }

  predicate CommandSafe(c: Command) { c.Ok() && forall i :: 0 <= i < |c.words| ==> WordSafe(c.words[i]) }

  /** Text that neither begins nor ends with white space. */
  predicate SolidEnds(s: string) { s != "" && !IsSpace(s[0]) && !IsSpace(s[|s| - 1]) }

  lemma {:induction false} SafePiece(p: Piece)
    requires p.Ok() && PieceSafe(p)
    ensures Safe(p.Written()) && SolidEnds(p.Written())
  {
  }

  lemma {:induction false} SafeWord(w: Word, n: nat)
    requires 0 < n <= |w| && WordOk(w) && WordSafe(w)
    ensures Safe(WrittenWord(w, n)) && SolidEnds(WrittenWord(w, n))
  {
    SafePiece(w[n - 1]);
    if n > 1 {
      SafeWord(w, n - 1);
    } else {
      assert "" + w[0].Written() == w[0].Written();
    }
  }

  /** The command from its first word to its `n`-th. */
  function Core(c: Command, n: nat): string
    requires c.Ok() && 0 < n <= |c.words|
  {
    var word := WrittenWord(c.words[n - 1], |c.words[n - 1]|);
    if n == 1 then word else Core(c, n - 1) + c.gaps[n - 1] + word
  }

  lemma {:induction false} SafeJoin(a: string, gap: string, b: string)
    requires Safe(a) && SolidEnds(a) && Blank(gap) && Safe(b) && SolidEnds(b)
    ensures Safe(a + gap + b) && SolidEnds(a + gap + b)
  {
  }

  lemma {:induction false} Regroup(a: string, b: string, c: string, d: string)
    ensures a + b + c + d == a + (b + c + d)
  {
  }

  lemma {:induction false} CoreIsSafe(c: Command, n: nat)
    requires CommandSafe(c) && 0 < n <= |c.words|
    ensures Safe(Core(c, n)) && SolidEnds(Core(c, n))
    ensures c.Upto(n) == c.gaps[0] + Core(c, n)
  {
    var word := WrittenWord(c.words[n - 1], |c.words[n - 1]|);
    assert WordOk(c.words[n - 1]) && WordSafe(c.words[n - 1]) && Blank(c.gaps[n - 1]);
    SafeWord(c.words[n - 1], |c.words[n - 1]|);
    if n > 1 {
      CoreIsSafe(c, n - 1);
      SafeJoin(Core(c, n - 1), c.gaps[n - 1], word);
      Regroup(c.gaps[0], Core(c, n - 1), c.gaps[n - 1], word);
    } else {
      assert c.Upto(0) + c.gaps[0] == c.gaps[0];
    }
  }

  lemma {:induction false} TrimmedLengthIs(s: string, n: nat, r: nat)
    requires r <= n <= |s| && (r > 0 ==> !IsSpace(s[r - 1])) && forall i :: r <= i < n ==> IsSpace(s[i])
    ensures TrimmedLength(s, n) == r
  {
    if r < n {
      TrimmedLengthIs(s, n - 1, r);
    }
  }

  /** Blanks around text with solid ends are trimmed. */
  lemma {:induction false} TrimGaps(a: string, core: string, b: string)
    requires Blank(a) && Blank(b) && SolidEnds(core)
    ensures Trim(a + core + b) == core
  {
    var s := a + core + b;
    assert s[|a|] == core[0];
    assert FirstNonSpace(s, 0) == |a|;
    var t := s[|a|..];
    assert t == core + b && t[|core| - 1] == core[|core| - 1];
    TrimmedLengthIs(t, |t|, |core|);
    assert t[..|core|] == core;
  }

  /** The command without the blanks around it. */
  function Tight(c: Command): Command
    requires c.Ok()
  {
    Command(c.words, c.gaps[0 := ""][|c.words| := ""])
  }

  lemma {:induction false} TightCore(c: Command, n: nat)
    requires c.Ok() && 0 < n <= |c.words|
    ensures Tight(c).Ok() && Tight(c).Upto(n) == Core(c, n)
  {
    assert Tight(c).Ok() by {
      forall i | 0 <= i < |Tight(c).gaps|
        ensures Blank(Tight(c).gaps[i])
      {
        assert Blank(c.gaps[i]);
      }
    }
    if n > 1 {
      TightCore(c, n - 1);
    } else {
      assert "" + "" + Core(c, 1) == Core(c, 1);
    }
  }

  /** A command means what the texts of its words mean, however it is written. */
  lemma {:induction false} WrittenCommandIsRead(c: Command)
    requires CommandSafe(c)
    ensures FileOps(c.Written()) == OpsOf(c.Texts())
  {
    var n := |c.words|;
    var core := Core(c, n);
    CoreIsSafe(c, n);
    assert Blank(c.gaps[0]) && Blank(c.gaps[n]);
    TrimGaps(c.gaps[0], core, c.gaps[n]);
    TightCore(c, n);
    WrittenWordsComeBack(Tight(c));
    assert Tight(c).Written() == core + "" == core;
    assert Tight(c).Texts() == c.Texts();
  }

  /** Arguments: paths, and options, which begin with a hyphen. */
  datatype Arg = Path(text: string) | Option(text: string)
  {
    predicate Ok() { Option? <==> text != "" && text[0] == '-' }
  }

  function ArgTexts(args: seq<Arg>): (r: seq<string>)
    ensures |r| == |args|
  {
    seq(|args|, i requires 0 <= i < |args| => args[i].text)
  }

  /** The paths among the first `n` arguments. */
  function PathsOf(args: seq<Arg>, n: nat): seq<string>
    requires n <= |args|
  {
    if n == 0 then [] else PathsOf(args, n - 1) + if args[n - 1].Path? then [args[n - 1].text] else []
  }

  lemma {:induction false} OptionsAreSkipped(args: seq<Arg>, n: nat, texts: seq<string>)
    requires n <= |args| && texts == ArgTexts(args) && forall i :: 0 <= i < n ==> args[i].Ok()
    ensures Args(texts, n) == PathsOf(args, n)
  {
    if n > 0 {
      OptionsAreSkipped(args, n - 1, texts);
    }
  }

  predicate ArgsOk(args: seq<Arg>) { forall i :: 0 <= i < |args| ==> args[i].Ok() }

  /** The words of `mv` or `git mv` with its arguments. */
  function MoveTokens(git: bool, args: seq<Arg>): seq<string> { (if git then ["git", "mv"] else ["mv"]) + ArgTexts(args) }

  lemma {:induction false} MoveMeans(git: bool, args: seq<Arg>, tokens: seq<string>)
    requires ArgsOk(args) && tokens == MoveTokens(git, args)
    ensures OpsOf(tokens) == MoveOps(PathsOf(args, |args|))
  {
    OptionsAreSkipped(args, |args|, ArgTexts(args));
    if git {
      assert tokens[2..] == ArgTexts(args);
    } else {
      assert tokens[1..] == ArgTexts(args);
      assert "mv" != "git";
    }
    if args == [] {
      assert PathsOf(args, 0) == [];
    }
  }

  predicate EndsInSlash(path: string) { path != "" && path[|path| - 1] == '/' }

  /** What moving these paths comes to. */
  ghost predicate MovesAre(ops: seq<FileOp>, paths: seq<string>)
  {
    var n := |paths| - 1;
    && (n < 1 ==> ops == [])
    && (n == 1 && !EndsInSlash(paths[1]) ==> ops == [Move(paths[0], paths[1])])
    && (n > 1 && !EndsInSlash(paths[n]) ==> ops == [])
    && (n >= 1 && EndsInSlash(paths[n]) ==>
          |ops| == n && forall i :: 0 <= i < n ==> ops[i] == Move(paths[i], paths[n] + Basename(paths[i])))
  }

  lemma {:induction false} MoveOpsAre(paths: seq<string>, ops: seq<FileOp>)
    requires ops == MoveOps(paths)
    ensures MovesAre(ops, paths)
  {
  }

  /** `mv`, with or without git, with any options, however the words are written: one path moves to the other;
      into a directory named with a slash every path before it moves, keeping its name; anything else,
      being ambiguous, is left alone. */
  lemma {:induction false} MoveIsRead(c: Command, git: bool, args: seq<Arg>, paths: seq<string>)
    requires CommandSafe(c) && ArgsOk(args) && c.Texts() == MoveTokens(git, args) && paths == PathsOf(args, |args|)
    ensures MovesAre(FileOps(c.Written()), paths)
  {
    WrittenCommandIsRead(c);
    MoveMeans(git, args, c.Texts());
    MoveOpsAre(paths, FileOps(c.Written()));
  }

  /** `rm` of any paths, with any options: their removal, in order. */
  lemma {:induction false} RemovalsAreRead(c: Command, args: seq<Arg>)
    requires CommandSafe(c) && ArgsOk(args) && args != [] && c.Texts() == ["rm"] + ArgTexts(args)
    ensures var ops, paths := FileOps(c.Written()), PathsOf(args, |args|);
            |ops| == |paths| && forall i :: 0 <= i < |ops| ==> ops[i] == Remove(paths[i])
  {
    WrittenCommandIsRead(c);
    RemoveMeans(args, c.Texts());
  }

  lemma {:induction false} RemoveMeans(args: seq<Arg>, tokens: seq<string>)
    requires ArgsOk(args) && args != [] && tokens == ["rm"] + ArgTexts(args)
    ensures OpsOf(tokens) == Removals(PathsOf(args, |args|))
  {
    assert tokens[1..] == ArgTexts(args) && tokens[0] != "git";
    OptionsAreSkipped(args, |args|, ArgTexts(args));
  }

  /** Any other verb is left alone. */
  lemma {:induction false} OtherVerbsAreIgnored(c: Command)
    requires CommandSafe(c) && c.Texts()[0] != "rm" && c.Texts()[0] != "mv"
    requires !(|c.Texts()| > 1 && c.Texts()[0] == "git" && c.Texts()[1] == "mv")
    ensures FileOps(c.Written()) == []
  {
    WrittenCommandIsRead(c);
  }

  /** So is a command with a character the reader does not interpret, wherever it stands. */
  lemma {:induction false} UnsafeIsIgnored(command: string, i: nat)
    requires i < |command| && command[i] in UNSAFE && !IsSpace(command[i])
    ensures FileOps(command) == []
  {
    var a := FirstNonSpace(command, 0);
    var t := command[a..];
    assert t[i - a] == command[i];
    assert TrimmedLength(t, |t|) > i - a;
    assert Trim(command)[i - a] == command[i];
  }

  /** A word that needs no quotes. */
  predicate PlainWord(t: string) { Bare(t).Ok() && PieceSafe(Bare(t)) }

  predicate PlainWords(ts: seq<string>) { forall i :: 0 <= i < |ts| ==> PlainWord(ts[i]) }

  /** The everyday form: bare words, one space between. */
  function Plainly(ts: seq<string>): Command
  {
    Command(seq(|ts|, i requires 0 <= i < |ts| => [Bare(ts[i])]),
            seq(|ts| + 1, i requires 0 <= i <= |ts| => if 0 < i < |ts| then " " else ""))
  }

  lemma {:induction false} PlainPiece(t: string)
    requires PlainWord(t)
    ensures WordOk([Bare(t)]) && WordSafe([Bare(t)]) && TextOf([Bare(t)], 1) == t && WrittenWord([Bare(t)], 1) == t
  {
    assert TextOf([Bare(t)], 0) == "" && WrittenWord([Bare(t)], 0) == "";
  }

  lemma {:induction false} PlainlyIsOk(ts: seq<string>, c: Command)
    requires ts != [] && PlainWords(ts) && c == Plainly(ts)
    ensures CommandSafe(c) && c.Texts() == ts
  {
    forall i | 0 <= i < |ts|
      ensures WordOk(c.words[i]) && WordSafe(c.words[i]) && c.Texts()[i] == ts[i]
    {
      assert PlainWord(ts[i]);
      PlainPiece(ts[i]);
    }
  }

  lemma {:induction false} PlainlyIsJoined(ts: seq<string>, c: Command, n: nat)
    requires PlainWords(ts) && c == Plainly(ts) && 0 < n <= |ts|
    ensures c.Upto(n) == Join(ts, n, ' ')
  {
    assert PlainWord(ts[n - 1]);
    PlainPiece(ts[n - 1]);
    if n > 1 {
      PlainlyIsJoined(ts, c, n - 1);
    } else {
      assert c.Upto(0) == "" && "" + "" + ts[0] == ts[0];
    }
  }

  lemma {:induction false} PlainCommandIsRead(ts: seq<string>)
    requires ts != [] && PlainWords(ts)
    ensures FileOps(Join(ts, |ts|, ' ')) == OpsOf(ts)
  {
    var c := Plainly(ts);
    PlainlyIsOk(ts, c);
    PlainlyIsJoined(ts, c, |ts|);
    assert c.Written() == c.Upto(|ts|) + "" == c.Upto(|ts|);
    WrittenCommandIsRead(c);
  }
}
