/**
  The language of sh.c, as a grammar of tokens that knows nothing of the parser: what a
  line is, its tokens, and its tree.
*/
module ShellGrammar {
  import opened ShellParser
  import opened ShellRoundTrip

  // ---------------------------------------------------------------- the grammar

  /** A word, or a symbol; '+' is >>. */
  datatype Tok = TWord(word: string) | TSym(c: char)

  /** `op` is '<', '>' or '+'. */
  datatype Redirection = Redirection(op: char, file: string)

  /** An argument and the redirections between it and the next. */
  datatype Arg = Arg(word: string, after: seq<Redirection>)

  datatype GExec = Simple(before: seq<Redirection>, args: seq<Arg>) | Group(line: GLine, after: seq<Redirection>)

  datatype GPipe = One(exec: GExec) | Piped(exec: GExec, rest: GPipe)

  /** A pipeline with a number of '&' behind it, and then ';' and another line. */
  datatype GLine = Last(pipe: GPipe, backs: nat) | Then(pipe: GPipe, backs: nat, rest: GLine)

  predicate RedirOk(r: Redirection) {
    (r.op == '<' || r.op == '>' || r.op == '+') && PlainWord(r.file)
  }

  predicate RedirsOk(rs: seq<Redirection>) {
    rs == [] || (RedirOk(rs[0]) && RedirsOk(rs[1..]))
  }

  predicate ArgsOk(args: seq<Arg>) {
    args == [] || (PlainWord(args[0].word) && RedirsOk(args[0].after) && ArgsOk(args[1..]))
  }

  /** Words are plain, and a simple command has fewer than MAXARGS arguments. */
  predicate ExecOk(e: GExec) {
    match e
    case Simple(before, args) => RedirsOk(before) && ArgsOk(args) && |args| < MAXARGS
    case Group(line, after) => LineOk(line) && RedirsOk(after)
  }

  predicate PipeOk(g: GPipe) {
    match g
    case One(e) => ExecOk(e)
    case Piped(e, rest) => ExecOk(e) && PipeOk(rest)
  }

  predicate LineOk(l: GLine) {
    match l
    case Last(g, _) => PipeOk(g)
    case Then(g, _, rest) => PipeOk(g) && LineOk(rest)
  }

  // ---------------------------------------------------------------- its tokens

  function RedirToks(rs: seq<Redirection>): seq<Tok> {
    if rs == [] then [] else [TSym(rs[0].op), TWord(rs[0].file)] + RedirToks(rs[1..])
  }

  function ArgToks(args: seq<Arg>): seq<Tok> {
    if args == [] then [] else [TWord(args[0].word)] + RedirToks(args[0].after) + ArgToks(args[1..])
  }

  function BackToks(n: nat): seq<Tok> {
    if n == 0 then [] else [TSym('&')] + BackToks(n - 1)
  }

  function ExecToks(e: GExec): seq<Tok> {
    match e
    case Simple(before, args) => RedirToks(before) + ArgToks(args)
    case Group(line, after) => [TSym('(')] + LineToks(line) + [TSym(')')] + RedirToks(after)
  }

  function PipeToks(g: GPipe): seq<Tok> {
    match g
    case One(e) => ExecToks(e)
    case Piped(e, rest) => ExecToks(e) + [TSym('|')] + PipeToks(rest)
  }

  function LineToks(l: GLine): seq<Tok> {
    match l
    case Last(g, n) => PipeToks(g) + BackToks(n)
    case Then(g, n, rest) => PipeToks(g) + BackToks(n) + [TSym(';')] + LineToks(rest)
  }

  // ---------------------------------------------------------------- its trees

  function ModeOf(op: char): Mode {
    if op == '<' then Input else Output
  }

  /** The first redirection is the innermost. */
  function Wrap(t: Tree, rs: seq<Redirection>): Tree
    decreases |rs|
  {
    if rs == [] then t else Wrap(TRedir(t, rs[0].file, ModeOf(rs[0].op)), rs[1..])
  }

  function WordsOf(args: seq<Arg>): seq<string> {
    if args == [] then [] else [args[0].word] + WordsOf(args[1..])
  }

  function RedirsOf(args: seq<Arg>): seq<Redirection> {
    if args == [] then [] else args[0].after + RedirsOf(args[1..])
  }

  function Backed(t: Tree, n: nat): Tree
    decreases n
  {
    if n == 0 then t else Backed(TBack(t), n - 1)
  }

  /** All arguments in order, inside all redirections in order. */
  function ExecTree(e: GExec): Tree {
    match e
    case Simple(before, args) => Wrap(TExec(WordsOf(args)), before + RedirsOf(args))
    case Group(line, after) => Wrap(LineTree(line), after)
  }

  function PipeTree(g: GPipe): Tree {
    match g
    case One(e) => ExecTree(e)
    case Piped(e, rest) => TPipe(ExecTree(e), PipeTree(rest))
  }

  function LineTree(l: GLine): Tree {
    match l
    case Last(g, n) => Backed(PipeTree(g), n)
    case Then(g, n, rest) => TList(Backed(PipeTree(g), n), LineTree(rest))
  }

  // ---------------------------------------------------------------- the tokens of a string

  function TokOf(s: string, t: Token): Tok
    requires t.q <= t.eq <= |s|
  {
    if t.kind == 'a' then TWord(s[t.q..t.eq]) else TSym(t.kind)
  }

  /** What gettoken() finds from p on. */
  function Toks(s: string, p: nat): seq<Tok>
    requires CString(s) && p <= |s|
    decreases |s| - p
  {
    var t := NextToken(s, p);
    if t.kind == NUL then [] else [TokOf(s, t)] + Toks(s, t.next)
  }

  /** peek() sees the first token. */
  lemma Sees(s: string, p: nat)
    requires CString(s) && p <= |s|
    ensures Toks(s, p) == [] <==> Look(s, p) == NUL
    ensures Toks(s, p) == [] <==> NextToken(s, p).kind == NUL
    ensures forall c :: Symbol(c) && c != '>' ==> (Look(s, p) == c <==> Toks(s, p) != [] && Toks(s, p)[0] == TSym(c))
    ensures Look(s, p) == '>' <==> Toks(s, p) != [] && (Toks(s, p)[0] == TSym('>') || Toks(s, p)[0] == TSym('+'))
    ensures Toks(s, p) != [] ==>
      Toks(s, p)[0] == TokOf(s, NextToken(s, p)) && Toks(s, p)[1..] == Toks(s, NextToken(s, p).next)
  {
  }

  lemma SkipsSpace(s: string, p: nat)
    requires CString(s) && p <= |s|
    ensures Toks(s, Skip(s, p)) == Toks(s, p)
  {
    assert Skip(s, Skip(s, p)) == Skip(s, p);
  }

  /** gettoken() gives the first token and leaves the others. */
  lemma Takes(s: string, p: nat, x: Tok, rest: seq<Tok>)
    requires CString(s) && p <= |s| && Toks(s, p) == [x] + rest
    ensures var t := NextToken(s, p);
      && t.kind != NUL && Toks(s, t.next) == rest
      && (if x.TWord? then t.kind == 'a' && Word(s, Span(t.q, t.eq)) == x.word else t.kind == x.c)
  {
    Sees(s, p);
    assert Toks(s, p)[0] == x && Toks(s, p)[1..] == rest;
  }

  // ---------------------------------------------------------------- parses

  /** A parse with this tree, up to these tokens. */
  ghost predicate Gives(s: string, r: Result, t: Tree, rest: seq<Tok>) {
    CString(s) && r.Ok? && r.pos <= |s| && Toks(s, r.pos) == rest && Meaning(s, r.cmd) == t
  }

  predicate RedirNext(rest: seq<Tok>) {
    rest != [] && (rest[0] == TSym('<') || rest[0] == TSym('>') || rest[0] == TSym('+'))
  }

  predicate ExecEnds(rest: seq<Tok>) {
    rest == [] || (rest[0].TSym? && EndsExec(rest[0].c))
  }

  /** Where a line ends: at the end of the string or at a closing parenthesis. */
  predicate LineEnds(rest: seq<Tok>) {
    rest == [] || rest[0] == TSym(')')
  }

  predicate PipeEnds(rest: seq<Tok>) {
    LineEnds(rest) || rest[0] == TSym('&') || rest[0] == TSym(';')
  }

  /** From p to the end of r the tokens are these, and the tree is t. */
  ghost predicate Covers(s: string, p: nat, r: Result, t: Tree, toks: seq<Tok>) {
    CString(s) && p <= |s| && r.Ok? && r.pos <= |s| && Toks(s, p) == toks + Toks(s, r.pos) && Meaning(s, r.cmd) == t
  }

  ghost predicate CoversBacks(s: string, p: nat, r: Result, t: Tree, n: nat) {
    Covers(s, p, r, Backed(t, n), BackToks(n))
  }

  // ---------------------------------------------------------------- the functions of the parser, unfolded once

  lemma RedirsIs(s: string, cmd: Cmd, p: nat)
    requires CString(s) && p <= |s| && (Look(s, p) == '<' || Look(s, p) == '>')
    ensures var t := NextToken(s, p);
      var w := NextToken(s, t.next);
      Redirs(s, cmd, p) ==
        if w.kind != 'a' then Fail else Redirs(s, Redir(cmd, Span(w.q, w.eq), ModeOf(t.kind)), w.next)
  {
  }

  lemma BacksIs(s: string, cmd: Cmd, p: nat)
    requires CString(s) && p <= |s|
    ensures Look(s, p) == '&' ==>
      var q := NextToken(s, p).next; p < q && Backs(s, cmd, p) == Backs(s, Back(cmd), q)
    ensures Look(s, p) != '&' ==> Backs(s, cmd, p) == Ok(cmd, Skip(s, p))
  {
  }

  lemma ArgsIs(s: string, cmd: Cmd, argc: nat, p: nat)
    requires CString(s) && p <= |s| && NextToken(s, p).kind == 'a' && !EndsExec(Look(s, p)) && argc + 1 < MAXARGS
    ensures var t := NextToken(s, p);
      var r := Redirs(s, AddArg(cmd, Span(t.q, t.eq)), t.next);
      Args(s, cmd, argc, p) == if r.Fail? then Fail else Args(s, r.cmd, argc + 1, r.pos)
  {
  }

  lemma ExecIs(s: string, p: nat)
    requires CString(s) && p <= |s| && Look(s, p) != '('
    ensures var r := Redirs(s, Exec([]), p);
      ParseExec(s, p) == if r.Fail? then Fail else Args(s, r.cmd, 0, r.pos)
  {
  }

  lemma GroupIs(s: string, p: nat)
    requires CString(s) && p <= |s| && Look(s, p) == '('
    ensures var r := ParseLine(s, NextToken(s, p).next);
      ParseExec(s, p) ==
        if r.Fail? || Look(s, r.pos) != ')' then Fail else Redirs(s, r.cmd, NextToken(s, r.pos).next)
  {
  }

  /** What parseline() has before it looks for ';'. */
  function Job(s: string, p: nat): (r: Result)
    requires CString(s) && p <= |s|
    ensures Within(s, p, r)
  {
    var l := ParsePipe(s, p);
    if l.Fail? then Fail else Backs(s, l.cmd, l.pos)
  }

  lemma LineIs(s: string, p: nat)
    requires CString(s) && p <= |s| && Job(s, p).Ok?
    ensures var b := Job(s, p);
      ParseLine(s, p) ==
        if Look(s, b.pos) == ';' then
          var r := ParseLine(s, NextToken(s, b.pos).next);
          if r.Fail? then Fail else Ok(List(b.cmd, r.cmd), r.pos)
        else Ok(b.cmd, Skip(s, b.pos))
  {
  }

  // ---------------------------------------------------------------- what an argument adds

  /** Adding an argument adds it to the innermost command. */
  function AddWord(t: Tree, w: string): Tree {
    match t
    case TExec(args) => TExec(args + [w])
    case TRedir(c, file, mode) => TRedir(AddWord(c, w), file, mode)
    case _ => t
  }

  lemma {:induction false} AddArgMeans(s: string, cmd: Cmd, a: Span)
    ensures Meaning(s, AddArg(cmd, a)) == AddWord(Meaning(s, cmd), Word(s, a))
  {
    match cmd
    case Exec(args) =>
      assert Meaning(s, AddArg(cmd, a)).args == Meaning(s, cmd).args + [Word(s, a)];
    case Redir(c, _, _) => AddArgMeans(s, c, a);
    case _ =>
  }

  lemma {:induction false} AddWordWrap(t: Tree, rs: seq<Redirection>, w: string)
    ensures AddWord(Wrap(t, rs), w) == Wrap(AddWord(t, w), rs)
    decreases |rs|
  {
    if rs != [] {
      AddWordWrap(TRedir(t, rs[0].file, ModeOf(rs[0].op)), rs[1..], w);
    }
  }

  lemma {:induction false} WrapConcat(t: Tree, a: seq<Redirection>, b: seq<Redirection>)
    ensures Wrap(Wrap(t, a), b) == Wrap(t, a + b)
    decreases |a|
  {
    if a == [] {
      assert a + b == b;
    } else {
      WrapConcat(TRedir(t, a[0].file, ModeOf(a[0].op)), a[1..], b);
      assert (a + b)[1..] == a[1..] + b;
    }
  }

  /** One argument and its redirections more. */
  lemma ArgMeans(s: string, cmd: Cmd, a: Span, ws: seq<string>, rs: seq<Redirection>, after: seq<Redirection>)
    requires Meaning(s, cmd) == Wrap(TExec(ws), rs)
    ensures Wrap(Meaning(s, AddArg(cmd, a)), after) == Wrap(TExec(ws + [Word(s, a)]), rs + after)
  {
    AddArgMeans(s, cmd, a);
    AddWordWrap(TExec(ws), rs, Word(s, a));
    WrapConcat(TExec(ws + [Word(s, a)]), rs, after);
  }
}
