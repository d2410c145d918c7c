/** The parser takes every line of the grammar, whatever its white space, to its tree. */
module ShellComplete {
  import opened ShellParser
  import opened ShellRoundTrip
  import opened ShellGrammar

  /** Redirections are taken as long as there are any. */
  lemma {:induction false} RedirsParse(rs: seq<Redirection>, s: string, cmd: Cmd, p: nat, r: Result,
                                       rest: seq<Tok>)
    requires CString(s) && p <= |s| && RedirsOk(rs) && Toks(s, p) == RedirToks(rs) + rest && !RedirNext(rest)
    requires r == Redirs(s, cmd, p)
    ensures Gives(s, r, Wrap(Meaning(s, cmd), rs), rest)
    decreases |rs|
  {
    if rs == [] {
      assert RedirToks(rs) + rest == rest;
      RedirsStop(s, cmd, p);
    } else {
      var more := RedirToks(rs[1..]) + rest;
      assert RedirToks(rs) + rest == [TSym(rs[0].op)] + ([TWord(rs[0].file)] + more);
      var d, q := RedirParses(rs[0], s, cmd, p, more);
      RedirsParse(rs[1..], s, d, q, r, rest);
    }
  }

  lemma RedirsStop(s: string, cmd: Cmd, p: nat)
    requires CString(s) && p <= |s| && !RedirNext(Toks(s, p))
    ensures Gives(s, Redirs(s, cmd, p), Meaning(s, cmd), Toks(s, p))
  {
    Sees(s, p);
    SkipsSpace(s, p);
  }

  /** The next redirection. */
  lemma RedirParses(x: Redirection, s: string, cmd: Cmd, p: nat, more: seq<Tok>) returns (d: Cmd, q: nat)
    requires CString(s) && p <= |s| && RedirOk(x) && Toks(s, p) == [TSym(x.op)] + ([TWord(x.file)] + more)
    ensures q <= |s| && Redirs(s, cmd, p) == Redirs(s, d, q) && Toks(s, q) == more
    ensures Meaning(s, d) == TRedir(Meaning(s, cmd), x.file, ModeOf(x.op))
  {
    Sees(s, p);
    Takes(s, p, TSym(x.op), [TWord(x.file)] + more);
    var t := NextToken(s, p);
    Takes(s, t.next, TWord(x.file), more);
    RedirsIs(s, cmd, p);
    var w := NextToken(s, t.next);
    d, q := Redir(cmd, Span(w.q, w.eq), ModeOf(t.kind)), w.next;
  }

  /** The next argument, with its redirections. */
  lemma ArgumentParses(x: Arg, s: string, cmd: Cmd, argc: nat, ws: seq<string>, rs: seq<Redirection>, p: nat,
                       more: seq<Tok>)
    returns (r: Result)
    requires CString(s) && p <= |s| && RedirsOk(x.after) && argc + 1 < MAXARGS && !RedirNext(more)
    requires Toks(s, p) == [TWord(x.word)] + (RedirToks(x.after) + more) && Meaning(s, cmd) == Wrap(TExec(ws), rs)
    ensures r.Ok? && r.pos <= |s| && Args(s, cmd, argc, p) == Args(s, r.cmd, argc + 1, r.pos)
    ensures Toks(s, r.pos) == more && Meaning(s, r.cmd) == Wrap(TExec(ws + [x.word]), rs + x.after)
  {
    Sees(s, p);
    Takes(s, p, TWord(x.word), RedirToks(x.after) + more);
    var t := NextToken(s, p);
    var a := Span(t.q, t.eq);
    r := Redirs(s, AddArg(cmd, a), t.next);
    RedirsParse(x.after, s, AddArg(cmd, a), t.next, r, more);
    ArgMeans(s, cmd, a, ws, rs, x.after);
    ArgsIs(s, cmd, argc, p);
  }

  lemma ArgsStop(s: string, cmd: Cmd, argc: nat, p: nat)
    requires CString(s) && p <= |s| && ExecEnds(Toks(s, p))
    ensures Gives(s, Args(s, cmd, argc, p), Meaning(s, cmd), Toks(s, p))
  {
    Sees(s, p);
    SkipsSpace(s, p);
  }

  /** The loop over the arguments, with what is there already. */
  lemma {:induction false} ArgumentsParse(args: seq<Arg>, s: string, cmd: Cmd, argc: nat, ws: seq<string>,
                                          rs: seq<Redirection>, p: nat, r: Result, rest: seq<Tok>)
    requires CString(s) && p <= |s| && ArgsOk(args) && argc == |ws| && argc + |args| < MAXARGS
    requires Toks(s, p) == ArgToks(args) + rest && ExecEnds(rest) && Meaning(s, cmd) == Wrap(TExec(ws), rs)
    requires r == Args(s, cmd, argc, p)
    ensures Gives(s, r, Wrap(TExec(ws + WordsOf(args)), rs + RedirsOf(args)), rest)
    decreases |args|
  {
    if args == [] {
      NoneLeft(args, ws, rs, rest);
      ArgsStop(s, cmd, argc, p);
    } else {
      var x, more := args[0], ArgToks(args[1..]) + rest;
      FirstArg(args, ws, rs, rest);
      var m := ArgumentParses(x, s, cmd, argc, ws, rs, p, more);
      ArgumentsParse(args[1..], s, m.cmd, argc + 1, ws + [x.word], rs + x.after, m.pos, r, rest);
    }
  }

  lemma NoneLeft(args: seq<Arg>, ws: seq<string>, rs: seq<Redirection>, rest: seq<Tok>)
    requires args == []
    ensures ArgToks(args) + rest == rest && ws + WordsOf(args) == ws && rs + RedirsOf(args) == rs
  {
  }

  lemma Associate<T>(a: seq<T>, b: seq<T>, c: seq<T>, d: seq<T>)
    ensures a + b + c + d == a + (b + (c + d))
    ensures a + b + c == a + (b + c)
  {
  }

  lemma {:induction false} FirstArg(args: seq<Arg>, ws: seq<string>, rs: seq<Redirection>, rest: seq<Tok>)
    requires args != [] && ArgsOk(args) && ExecEnds(rest)
    ensures ArgToks(args) + rest == [TWord(args[0].word)] + (RedirToks(args[0].after) + (ArgToks(args[1..]) + rest))
    ensures ws + [args[0].word] + WordsOf(args[1..]) == ws + WordsOf(args)
    ensures rs + args[0].after + RedirsOf(args[1..]) == rs + RedirsOf(args)
    ensures RedirsOk(args[0].after) && ArgsOk(args[1..]) && !RedirNext(ArgToks(args[1..]) + rest)
  {
    Associate([TWord(args[0].word)], RedirToks(args[0].after), ArgToks(args[1..]), rest);
    Associate(ws, [args[0].word], WordsOf(args[1..]), []);
    Associate(rs, args[0].after, RedirsOf(args[1..]), []);
    NotRedirs(args[1..], rest);
  }

  lemma {:induction false} NotRedirs(args: seq<Arg>, rest: seq<Tok>)
    requires ExecEnds(rest)
    ensures !RedirNext(ArgToks(args) + rest)
  {
  }

  lemma SimpleParses(e: GExec, s: string, p: nat, rest: seq<Tok>)
    requires e.Simple? && ExecOk(e) && CString(s) && p <= |s| && Toks(s, p) == ExecToks(e) + rest && ExecEnds(rest)
    ensures Gives(s, ParseExec(s, p), ExecTree(e), rest)
  {
    NoParen(e, rest);
    NotGroup(s, p);
    var none: Cmd := Exec([]);
    assert Meaning(s, none) == TExec([]);
    var r := Redirs(s, none, p);
    RedirsParse(e.before, s, none, p, r, ArgToks(e.args) + rest);
    ExecIs(s, p);
    ArgumentsParse(e.args, s, r.cmd, 0, [], e.before, r.pos, ParseExec(s, p), rest);
    assert [] + WordsOf(e.args) == WordsOf(e.args);
  }

  lemma NotGroup(s: string, p: nat)
    requires CString(s) && p <= |s| && (Toks(s, p) == [] || Toks(s, p)[0] != TSym('('))
    ensures Look(s, p) != '('
  {
    Sees(s, p);
  }

  /** A simple command does not begin with a parenthesis. */
  lemma NoParen(e: GExec, rest: seq<Tok>)
    requires e.Simple? && ExecOk(e) && ExecEnds(rest)
    ensures var toks := ExecToks(e) + rest; toks != [] ==> toks[0] != TSym('(')
    ensures ExecToks(e) + rest == RedirToks(e.before) + (ArgToks(e.args) + rest) && !RedirNext(ArgToks(e.args) + rest)
  {
    if e.before != [] {
      assert RedirOk(e.before[0]);
    }
  }

  lemma {:induction false} BacksParse(n: nat, s: string, cmd: Cmd, t: Tree, p: nat, r: Result, rest: seq<Tok>)
    requires CString(s) && p <= |s| && r == Backs(s, cmd, p) && t == Meaning(s, cmd)
    requires Toks(s, p) == BackToks(n) + rest && (rest == [] || rest[0] != TSym('&'))
    ensures Gives(s, r, Backed(t, n), rest)
    decreases n
  {
    BacksIs(s, cmd, p);
    Sees(s, p);
    if n == 0 {
      assert BackToks(n) + rest == rest;
      SkipsSpace(s, p);
    } else {
      var more := BackToks(n - 1) + rest;
      assert BackToks(n) + rest == [TSym('&')] + more;
      Takes(s, p, TSym('&'), more);
      BacksParse(n - 1, s, Back(cmd), TBack(t), NextToken(s, p).next, r, rest);
    }
  }

  lemma {:induction false} ExecParse(e: GExec, s: string, p: nat, rest: seq<Tok>)
    requires ExecOk(e) && CString(s) && p <= |s| && Toks(s, p) == ExecToks(e) + rest && ExecEnds(rest)
    ensures Gives(s, ParseExec(s, p), ExecTree(e), rest)
    decreases e, 0
  {
    match e
    case Simple(_, _) => SimpleParses(e, s, p, rest);
    case Group(line, after) =>
      var behind := [TSym(')')] + (RedirToks(after) + rest);
      assert Toks(s, p) == [TSym('(')] + (LineToks(line) + behind);
      Sees(s, p);
      Takes(s, p, TSym('('), LineToks(line) + behind);
      LineParse(line, s, NextToken(s, p).next, behind);
      GroupParses(s, p, LineTree(line), after, rest);
  }

  /** Behind the line in a group come the parenthesis and the redirections. */
  lemma GroupParses(s: string, p: nat, t: Tree, after: seq<Redirection>, rest: seq<Tok>)
    requires CString(s) && p <= |s| && Look(s, p) == '(' && RedirsOk(after) && !RedirNext(rest)
    requires Gives(s, ParseLine(s, NextToken(s, p).next), t, [TSym(')')] + (RedirToks(after) + rest))
    ensures Gives(s, ParseExec(s, p), Wrap(t, after), rest)
  {
    var r := ParseLine(s, NextToken(s, p).next);
    Sees(s, r.pos);
    Takes(s, r.pos, TSym(')'), RedirToks(after) + rest);
    GroupIs(s, p);
    RedirsParse(after, s, r.cmd, NextToken(s, r.pos).next, ParseExec(s, p), rest);
  }

  lemma {:induction false} PipeParse(g: GPipe, s: string, p: nat, rest: seq<Tok>)
    requires PipeOk(g) && CString(s) && p <= |s| && Toks(s, p) == PipeToks(g) + rest && PipeEnds(rest)
    ensures Gives(s, ParsePipe(s, p), PipeTree(g), rest)
    decreases g, 0
  {
    match g
    case One(e) =>
      ExecParse(e, s, p, rest);
      OnePiece(s, p, ExecTree(e), rest);
    case Piped(e, more) =>
      var behind := [TSym('|')] + (PipeToks(more) + rest);
      assert PipeToks(g) + rest == ExecToks(e) + behind;
      ExecParse(e, s, p, behind);
      var l := ParseExec(s, p);
      Sees(s, l.pos);
      Takes(s, l.pos, TSym('|'), PipeToks(more) + rest);
      PipeParse(more, s, NextToken(s, l.pos).next, rest);
      TwoPieces(s, p, ExecTree(e), PipeTree(more), rest);
  }

  lemma OnePiece(s: string, p: nat, t: Tree, rest: seq<Tok>)
    requires CString(s) && p <= |s| && Gives(s, ParseExec(s, p), t, rest) && PipeEnds(rest)
    ensures Gives(s, ParsePipe(s, p), t, rest)
  {
    var l := ParseExec(s, p);
    Sees(s, l.pos);
    SkipsSpace(s, l.pos);
  }

  lemma TwoPieces(s: string, p: nat, t: Tree, u: Tree, rest: seq<Tok>)
    requires CString(s) && p <= |s|
    requires ParseExec(s, p).Ok? && Meaning(s, ParseExec(s, p).cmd) == t && Look(s, ParseExec(s, p).pos) == '|'
    requires Gives(s, ParsePipe(s, NextToken(s, ParseExec(s, p).pos).next), u, rest)
    ensures Gives(s, ParsePipe(s, p), TPipe(t, u), rest)
  {
  }

  /** A pipeline and the '&'s behind it. */
  lemma {:induction false} JobParse(g: GPipe, n: nat, s: string, p: nat, rest: seq<Tok>)
    requires PipeOk(g) && CString(s) && p <= |s| && Toks(s, p) == PipeToks(g) + BackToks(n) + rest
    requires LineEnds(rest) || rest[0] == TSym(';')
    ensures Gives(s, Job(s, p), Backed(PipeTree(g), n), rest)
    decreases g, 1
  {
    assert Toks(s, p) == PipeToks(g) + (BackToks(n) + rest);
    PipeParse(g, s, p, BackToks(n) + rest);
    var l := ParsePipe(s, p);
    BacksParse(n, s, l.cmd, PipeTree(g), l.pos, Job(s, p), rest);
  }

  lemma {:induction false} LineParse(l: GLine, s: string, p: nat, rest: seq<Tok>)
    requires LineOk(l) && CString(s) && p <= |s| && Toks(s, p) == LineToks(l) + rest && LineEnds(rest)
    ensures Gives(s, ParseLine(s, p), LineTree(l), rest)
    decreases l, 0
  {
    match l
    case Last(g, n) =>
      JobParse(g, n, s, p, rest);
      LastJob(s, p, Backed(PipeTree(g), n), rest);
    case Then(g, n, more) =>
      var behind := [TSym(';')] + (LineToks(more) + rest);
      assert LineToks(l) + rest == PipeToks(g) + BackToks(n) + behind;
      JobParse(g, n, s, p, behind);
      var b := Job(s, p);
      Sees(s, b.pos);
      Takes(s, b.pos, TSym(';'), LineToks(more) + rest);
      LineParse(more, s, NextToken(s, b.pos).next, rest);
      ThenLine(s, p, Backed(PipeTree(g), n), LineTree(more), rest);
  }

  lemma LastJob(s: string, p: nat, t: Tree, rest: seq<Tok>)
    requires CString(s) && p <= |s| && Gives(s, Job(s, p), t, rest) && LineEnds(rest)
    ensures Gives(s, ParseLine(s, p), t, rest)
  {
    LineIs(s, p);
    Sees(s, Job(s, p).pos);
    SkipsSpace(s, Job(s, p).pos);
  }

  lemma ThenLine(s: string, p: nat, t: Tree, u: Tree, rest: seq<Tok>)
    requires CString(s) && p <= |s|
    requires Job(s, p).Ok? && Meaning(s, Job(s, p).cmd) == t && Look(s, Job(s, p).pos) == ';'
    requires Gives(s, ParseLine(s, NextToken(s, Job(s, p).pos).next), u, rest)
    ensures Gives(s, ParseLine(s, p), TList(t, u), rest)
  {
    LineIs(s, p);
    Listed(s, Job(s, p), ParseLine(s, NextToken(s, Job(s, p).pos).next), ParseLine(s, p), t, u, rest);
  }

  lemma Listed(s: string, l: Result, r: Result, whole: Result, t: Tree, u: Tree, rest: seq<Tok>)
    requires l.Ok? && Meaning(s, l.cmd) == t && Gives(s, r, u, rest) && whole == Ok(List(l.cmd, r.cmd), r.pos)
    ensures Gives(s, whole, TList(t, u), rest)
  {
  }
}
