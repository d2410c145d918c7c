/** sh.c: the loops of the lexer and the parser, and the NULs that end the strings. */
module Shell {
  import opened ShellParser

  // ---------------------------------------------------------------- gettoken() and peek()

  method SkipSpace(s: string, p: nat) returns (r: nat)
    requires p <= |s|
    ensures r == Skip(s, p)
  {
    r := p;
    while r < |s| && Space(s[r])
      invariant p <= r <= |s| && Skip(s, p) == Skip(s, r)
    {
      r := r + 1;
    }
  }

  /** peek(): the cursor past white space, and whether one of toks is there. */
  method Peek(s: string, p: nat, toks: string) returns (next: nat, r: bool)
    requires p <= |s|
    ensures next == Skip(s, p) && (r <==> Look(s, p) != NUL && Look(s, p) in toks)
  {
    next := SkipSpace(s, p);
    r := At(s, next) != NUL && At(s, next) in toks;
  }

  /** gettoken() */
  method Gettoken(s: string, p: nat) returns (t: Token)
    requires p <= |s|
    ensures t == NextToken(s, p)
  {
    var q := SkipSpace(s, p);
    var e := q;
    var c := At(s, q);
    var ret := c;
    if c == NUL {
    } else if c == '|' || c == '(' || c == ')' || c == ';' || c == '&' || c == '<' {
      e := e + 1;
    } else if c == '>' {
      e := e + 1;
      if At(s, e) == '>' {
        ret := '+';
        e := e + 1;
      }
    } else {
      ret := 'a';
      while e < |s| && !Space(s[e]) && !Symbol(s[e])
        invariant q <= e <= |s| && WordEnd(s, q) == WordEnd(s, e)
      {
        e := e + 1;
      }
    }
    var next := SkipSpace(s, e);
    t := Token(ret, q, e, next);
  }

  // ---------------------------------------------------------------- the parsers

  lemma SkipTwice(s: string, p: nat)
    requires p <= |s|
    ensures Skip(s, Skip(s, p)) == Skip(s, p)
  {
  }

  /** parseredirs() */
  method Parseredirs(s: string, cmd: Cmd, p: nat) returns (r: Result)
    requires CString(s) && p <= |s|
    ensures r == Redirs(s, cmd, p)
    ensures r.Ok? && SpansOk(s, cmd) ==> SpansOk(s, r.cmd)
  {
    RedirsWords(s, cmd, p);
    var c, i := cmd, p;
    while true
      invariant 0 <= i <= |s| && Redirs(s, cmd, p) == Redirs(s, c, i)
      decreases |s| - i
    {
      var j, more := Peek(s, i, "<>");
      if !more {
        return Ok(c, j);
      }
      SkipTwice(s, i);
      var tok := Gettoken(s, j);
      var w := Gettoken(s, tok.next);
      if w.kind != 'a' {
        return Fail;
      }
      c := Redir(c, Span(w.q, w.eq), if tok.kind == '<' then Input else Output);
      i := w.next;
    }
  }

  /** parseexec() */
  method Parseexec(s: string, p: nat) returns (r: Result)
    requires CString(s) && p <= |s|
    ensures r == ParseExec(s, p)
    ensures r.Ok? ==> SpansOk(s, r.cmd)
    decreases |s| - p, 1
  {
    ParseWords(s, p);
    var i, block := Peek(s, p, "(");
    SkipTwice(s, p);
    if block {
      r := Parseblock(s, p);
      return;
    }
    r := Parseredirs(s, Exec([]), p);
    if r.Fail? {
      return;
    }
    r := Parseargs(s, r.cmd, r.pos);
  }

  /** The loop of parseexec(). */
  method Parseargs(s: string, cmd: Cmd, p: nat) returns (r: Result)
    requires CString(s) && p <= |s|
    ensures r == Args(s, cmd, 0, p)
    ensures r.Ok? && SpansOk(s, cmd) ==> SpansOk(s, r.cmd)
  {
    ArgsWords(s, cmd, p);
    var argc := 0;
    r := Ok(cmd, p);
    while true
      invariant r.Ok? && r.pos <= |s| && Args(s, cmd, 0, p) == Args(s, r.cmd, argc, r.pos)
      decreases |s| - r.pos
    {
      var i, ends := Peek(s, r.pos, "|)&;");
      if ends {
        return Ok(r.cmd, i);
      }
      SkipTwice(s, r.pos);
      var tok := Gettoken(s, i);
      if tok.kind == NUL {
        return Ok(r.cmd, tok.next);
      }
      if tok.kind != 'a' {
        return Fail;
      }
      argc := argc + 1;
      if argc >= MAXARGS {
        return Fail;
      }
      r := Parseredirs(s, AddArg(r.cmd, Span(tok.q, tok.eq)), tok.next);
      if r.Fail? {
        return;
      }
    }
  }

  /** parseblock() */
  method Parseblock(s: string, p: nat) returns (r: Result)
    requires CString(s) && p <= |s|
    ensures r == ParseBlock(s, p)
    ensures r.Ok? ==> SpansOk(s, r.cmd)
    decreases |s| - p, 0
  {
    ParseWords(s, p);
    var i, here := Peek(s, p, "(");
    if !here {
      return Fail;
    }
    var tok := Gettoken(s, p);
    r := Parseline(s, tok.next);
    if r.Fail? {
      return;
    }
    i, here := Peek(s, r.pos, ")");
    if !here {
      return Fail;
    }
    tok := Gettoken(s, r.pos);
    r := Parseredirs(s, r.cmd, tok.next);
  }

  /** parsepipe() */
  method Parsepipe(s: string, p: nat) returns (r: Result)
    requires CString(s) && p <= |s|
    ensures r == ParsePipe(s, p)
    ensures r.Ok? ==> SpansOk(s, r.cmd)
    decreases |s| - p, 2
  {
    ParseWords(s, p);
    var l := Parseexec(s, p);
    if l.Fail? {
      return Fail;
    }
    var i, here := Peek(s, l.pos, "|");
    if !here {
      return Ok(l.cmd, i);
    }
    var tok := Gettoken(s, l.pos);
    r := Parsepipe(s, tok.next);
    if r.Ok? {
      r := Ok(Pipe(l.cmd, r.cmd), r.pos);
    }
  }

  /** The loop of parseline(). */
  method Parsebacks(s: string, cmd: Cmd, p: nat) returns (r: Result)
    requires CString(s) && p <= |s|
    ensures r == Backs(s, cmd, p)
  {
    var c, i := cmd, p;
    while true
      invariant 0 <= i <= |s| && Backs(s, cmd, p) == Backs(s, c, i)
      decreases |s| - i
    {
      var j, here := Peek(s, i, "&");
      if !here {
        return Ok(c, j);
      }
      var tok := Gettoken(s, i);
      c := Back(c);
      i := tok.next;
    }
  }

  /** parseline() */
  method Parseline(s: string, p: nat) returns (r: Result)
    requires CString(s) && p <= |s|
    ensures r == ParseLine(s, p)
    ensures r.Ok? ==> SpansOk(s, r.cmd)
    decreases |s| - p, 3
  {
    ParseWords(s, p);
    r := Parsepipe(s, p);
    if r.Fail? {
      return;
    }
    var b := Parsebacks(s, r.cmd, r.pos);
    var i, here := Peek(s, b.pos, ";");
    if !here {
      return Ok(b.cmd, i);
    }
    var tok := Gettoken(s, b.pos);
    r := Parseline(s, tok.next);
    if r.Ok? {
      r := Ok(List(b.cmd, r.cmd), r.pos);
    }
  }

  // ---------------------------------------------------------------- the tokens of a command

  /** All strings of a command. */
  function Spans(cmd: Cmd): set<Span> {
    match cmd
    case Exec(args) => set a | a in args
    case Redir(c, file, _) => Spans(c) + {file}
    case Pipe(l, r) => Spans(l) + Spans(r)
    case List(l, r) => Spans(l) + Spans(r)
    case Back(c) => Spans(c)
  }

  ghost predicate SpansOk(s: string, cmd: Cmd) {
    forall a :: a in Spans(cmd) ==> IsWord(s, a.q, a.eq)
  }

  lemma {:induction false} AddArgSpans(cmd: Cmd, a: Span)
    ensures Spans(AddArg(cmd, a)) <= Spans(cmd) + {a}
  {
    if cmd.Redir? {
      AddArgSpans(cmd.cmd, a);
    }
  }

  lemma {:induction false} RedirsSpans(s: string, cmd: Cmd, p: nat)
    requires CString(s) && p <= |s| && SpansOk(s, cmd) && Redirs(s, cmd, p).Ok?
    ensures SpansOk(s, Redirs(s, cmd, p).cmd)
    decreases |s| - p
  {
    var c := Look(s, p);
    if c == '<' || c == '>' {
      var t := NextToken(s, p);
      var w := NextToken(s, t.next);
      RedirsSpans(s, Redir(cmd, Span(w.q, w.eq), if t.kind == '<' then Input else Output), w.next);
    }
  }

  lemma {:induction false} ArgsSpans(s: string, cmd: Cmd, argc: nat, p: nat)
    requires CString(s) && p <= |s| && SpansOk(s, cmd) && Args(s, cmd, argc, p).Ok?
    ensures SpansOk(s, Args(s, cmd, argc, p).cmd)
    decreases |s| - p
  {
    var t := NextToken(s, p);
    if !EndsExec(Look(s, p)) && t.kind != NUL {
      var a := Span(t.q, t.eq);
      AddArgSpans(cmd, a);
      RedirsSpans(s, AddArg(cmd, a), t.next);
      var r := Redirs(s, AddArg(cmd, a), t.next);
      ArgsSpans(s, r.cmd, argc + 1, r.pos);
    }
  }

  lemma {:induction false} BacksSpans(s: string, cmd: Cmd, p: nat)
    requires CString(s) && p <= |s|
    ensures Spans(Backs(s, cmd, p).cmd) == Spans(cmd)
    decreases |s| - p
  {
    if Look(s, p) == '&' {
      BacksSpans(s, Back(cmd), NextToken(s, p).next);
    }
  }

  lemma {:induction false} BlockSpans(s: string, p: nat)
    requires CString(s) && p <= |s| && ParseBlock(s, p).Ok?
    ensures SpansOk(s, ParseBlock(s, p).cmd)
    decreases |s| - p, 0
  {
    var n := NextToken(s, p).next;
    LineSpans(s, n);
    var r := ParseLine(s, n);
    RedirsSpans(s, r.cmd, NextToken(s, r.pos).next);
  }

  lemma {:induction false} ExecSpans(s: string, p: nat)
    requires CString(s) && p <= |s| && ParseExec(s, p).Ok?
    ensures SpansOk(s, ParseExec(s, p).cmd)
    decreases |s| - p, 1
  {
    if Look(s, p) == '(' {
      BlockSpans(s, p);
    } else {
      RedirsSpans(s, Exec([]), p);
      var r := Redirs(s, Exec([]), p);
      ArgsSpans(s, r.cmd, 0, r.pos);
    }
  }

  lemma {:induction false} PipeSpans(s: string, p: nat)
    requires CString(s) && p <= |s| && ParsePipe(s, p).Ok?
    ensures SpansOk(s, ParsePipe(s, p).cmd)
    decreases |s| - p, 2
  {
    ExecSpans(s, p);
    var l := ParseExec(s, p);
    if Look(s, l.pos) == '|' {
      PipeSpans(s, NextToken(s, l.pos).next);
    }
  }

  /** Every string that the parser finds is a maximal word of the line. */
  lemma {:induction false} LineSpans(s: string, p: nat)
    requires CString(s) && p <= |s| && ParseLine(s, p).Ok?
    ensures SpansOk(s, ParseLine(s, p).cmd)
    decreases |s| - p, 3
  {
    PipeSpans(s, p);
    var l := ParsePipe(s, p);
    BacksSpans(s, l.cmd, l.pos);
    var b := Backs(s, l.cmd, l.pos);
    if Look(s, b.pos) == ';' {
      LineSpans(s, NextToken(s, b.pos).next);
    }
  }

  lemma RedirsWords(s: string, cmd: Cmd, p: nat)
    requires CString(s) && p <= |s|
    ensures Redirs(s, cmd, p).Ok? && SpansOk(s, cmd) ==> SpansOk(s, Redirs(s, cmd, p).cmd)
  {
    if Redirs(s, cmd, p).Ok? && SpansOk(s, cmd) {
      RedirsSpans(s, cmd, p);
    }
  }

  lemma ArgsWords(s: string, cmd: Cmd, p: nat)
    requires CString(s) && p <= |s|
    ensures Args(s, cmd, 0, p).Ok? && SpansOk(s, cmd) ==> SpansOk(s, Args(s, cmd, 0, p).cmd)
  {
    if Args(s, cmd, 0, p).Ok? && SpansOk(s, cmd) {
      ArgsSpans(s, cmd, 0, p);
    }
  }

  /** The four parsers find maximal words only. */
  lemma ParseWords(s: string, p: nat)
    requires CString(s) && p <= |s|
    ensures ParseBlock(s, p).Ok? ==> SpansOk(s, ParseBlock(s, p).cmd)
    ensures ParseExec(s, p).Ok? ==> SpansOk(s, ParseExec(s, p).cmd)
    ensures ParsePipe(s, p).Ok? ==> SpansOk(s, ParsePipe(s, p).cmd)
    ensures ParseLine(s, p).Ok? ==> SpansOk(s, ParseLine(s, p).cmd)
  {
    if ParseBlock(s, p).Ok? {
      BlockSpans(s, p);
    }
    if ParseExec(s, p).Ok? {
      ExecSpans(s, p);
    }
    if ParsePipe(s, p).Ok? {
      PipeSpans(s, p);
    }
    if ParseLine(s, p).Ok? {
      LineSpans(s, p);
    }
  }

  // ---------------------------------------------------------------- nulterminate()

  function Ends(cmd: Cmd): set<nat> {
    set a | a in Spans(cmd) :: a.eq
  }

  /** The text with a NUL at each of the positions. */
  ghost predicate Nulled(b: seq<char>, ends: set<nat>, b': seq<char>) {
    |b'| == |b| && forall i :: 0 <= i < |b| ==> b'[i] == if i in ends then NUL else b[i]
  }

  /** The loop of nulterminate() over the arguments of an exec command. */
  method TerminateArgs(args: seq<Span>, buf: array<char>)
    requires forall a :: a in args ==> a.eq < buf.Length
    modifies buf
    ensures Nulled(old(buf[..]), set a | a in args :: a.eq, buf[..])
  {
    var i := 0;
    while i < |args|
      invariant 0 <= i <= |args| && Nulled(old(buf[..]), set a | a in args[..i] :: a.eq, buf[..])
    {
      buf[args[i].eq] := NUL;
      assert args[..i + 1] == args[..i] + [args[i]];
      i := i + 1;
    }
    assert args[..i] == args;
  }

  /** nulterminate(): a NUL behind every string of the command, and no other change. */
  method Nulterminate(cmd: Cmd, buf: array<char>)
    requires forall a :: a in Spans(cmd) ==> a.eq < buf.Length
    modifies buf
    ensures Nulled(old(buf[..]), Ends(cmd), buf[..])
    decreases cmd
  {
    match cmd
    case Exec(args) =>
      TerminateArgs(args, buf);
      assert (set a | a in args :: a.eq) == Ends(cmd);
    case Redir(c, file, _) =>
      Nulterminate(c, buf);
      buf[file.eq] := NUL;
      assert Ends(cmd) == Ends(c) + {file.eq};
    case Pipe(l, r) =>
      Nulterminate(l, buf);
      Nulterminate(r, buf);
      assert Ends(cmd) == Ends(l) + Ends(r);
    case List(l, r) =>
      Nulterminate(l, buf);
      Nulterminate(r, buf);
      assert Ends(cmd) == Ends(l) + Ends(r);
    case Back(c) =>
      Nulterminate(c, buf);
  }

  /** The C string at position q. */
  function StringAt(b: seq<char>, q: nat): string
    decreases |b| - q
  {
    if |b| <= q || b[q] == NUL then "" else [b[q]] + StringAt(b, q + 1)
  }

  lemma {:induction false} StringIs(b: seq<char>, q: nat, e: nat)
    requires q <= e < |b| && b[e] == NUL && forall i :: q <= i < e ==> b[i] != NUL
    ensures StringAt(b, q) == b[q..e]
    decreases e - q
  {
    if q < e {
      StringIs(b, q + 1, e);
      assert b[q..e] == [b[q]] + b[q + 1..e];
    }
  }

  /** No NUL lands inside a token: words end where no word goes on. */
  lemma TokensSurvive(s: string, cmd: Cmd, b: seq<char>, a: Span)
    requires CString(s) && SpansOk(s, cmd) && a in Spans(cmd) && Nulled(s + [NUL], Ends(cmd), b)
    ensures a.q <= a.eq <= |s| && StringAt(b, a.q) == s[a.q..a.eq]
  {
    assert IsWord(s, a.q, a.eq) && a.eq in Ends(cmd);
    forall i | a.q <= i < a.eq ensures b[i] == s[i] && b[i] != NUL {
      forall c | c in Spans(cmd) ensures c.eq != i {
        assert IsWord(s, c.q, c.eq) && Plain(s[i]);
      }
    }
    StringIs(b, a.q, a.eq);
    assert b[a.q..a.eq] == s[a.q..a.eq];
  }

  /** parsecmd(): the command that the text stands for, each of whose strings is, in
      the buffer, a C string equal to its token; or an error and no change. */
  method Parsecmd(buf: array<char>, n: nat) returns (r: Result)
    requires buf.Length == n + 1 && buf[n] == NUL && CString(buf[..n])
    modifies buf
    ensures r == ParseCmd(old(buf[..n]))
    ensures r.Fail? ==> buf[..] == old(buf[..])
    ensures r.Ok? ==>
      forall a :: a in Spans(r.cmd) ==> a.q <= a.eq <= n && StringAt(buf[..], a.q) == old(buf[..n])[a.q..a.eq]
  {
    var s := buf[..n];
    assert buf[..] == s + [NUL];
    r := Parseline(s, 0);
    if r.Fail? {
      return;
    }
    var end, _ := Peek(s, r.pos, "");
    if end != n {
      return Fail;
    }
    forall a | a in Spans(r.cmd) ensures a.eq < buf.Length {
      assert IsWord(s, a.q, a.eq);
    }
    Nulterminate(r.cmd, buf);
    forall a | a in Spans(r.cmd) ensures a.q <= a.eq <= n && StringAt(buf[..], a.q) == s[a.q..a.eq] {
      TokensSurvive(s, r.cmd, buf[..], a);
    }
  }
}
