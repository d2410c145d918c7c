/** Command trees, written with all their parentheses and parsed again. */
module ShellRoundTrip {
  import opened ShellParser

  /** A command tree with its words. */
  datatype Tree =
    | TExec(args: seq<string>)
    | TRedir(cmd: Tree, file: string, mode: Mode)
    | TPipe(left: Tree, right: Tree)
    | TList(left: Tree, right: Tree)
    | TBack(cmd: Tree)

  function Word(s: string, a: Span): string {
    if a.q <= a.eq <= |s| then s[a.q..a.eq] else ""
  }

  /** The tree that a parsed command stands for. */
  function Meaning(s: string, cmd: Cmd): Tree {
    match cmd
    case Exec(args) => TExec(seq(|args|, i requires 0 <= i < |args| => Word(s, args[i])))
    case Redir(c, file, mode) => TRedir(Meaning(s, c), Word(s, file), mode)
    case Pipe(l, r) => TPipe(Meaning(s, l), Meaning(s, r))
    case List(l, r) => TList(Meaning(s, l), Meaning(s, r))
    case Back(c) => TBack(Meaning(s, c))
  }

  predicate PlainWord(w: string) {
    w != "" && forall i :: 0 <= i < |w| ==> Plain(w[i])
  }

  /** Words are plain, and an exec has fewer than MAXARGS arguments. */
  predicate Writable(t: Tree) {
    match t
    case TExec(args) => |args| < MAXARGS && forall i :: 0 <= i < |args| ==> PlainWord(args[i])
    case TRedir(c, file, mode) => Writable(c) && PlainWord(file)
    case TPipe(l, r) => Writable(l) && Writable(r)
    case TList(l, r) => Writable(l) && Writable(r)
    case TBack(c) => Writable(c)
  }

  function Size(t: Tree): nat {
    match t
    case TExec(_) => 0
    case TRedir(c, _, _) => 1 + Size(c)
    case TPipe(l, r) => 1 + Size(l) + Size(r)
    case TList(l, r) => 1 + Size(l) + Size(r)
    case TBack(c) => 1 + Size(c)
  }

  function Words(args: seq<string>): string {
    if args == [] then "" else args[0] + " " + Words(args[1..])
  }

  /** The fully parenthesised text of a tree. */
  function Render(t: Tree): string {
    match t
    case TExec(args) => Words(args)
    case TRedir(c, file, mode) => "(" + Render(c) + ")" + (if mode == Input then "<" else ">") + file
    case TPipe(l, r) => "(" + Render(l) + ")|(" + Render(r) + ")"
    case TList(l, r) => "(" + Render(l) + ");(" + Render(r) + ")"
    case TBack(c) => "(" + Render(c) + ")&"
  }

  // ---------------------------------------------------------------- text at a position

  predicate Has(s: string, p: nat, x: string) {
    p + |x| <= |s| && s[p..p + |x|] == x
  }

  lemma HasConcat(s: string, p: nat, x: string, y: string)
    requires Has(s, p, x + y)
    ensures Has(s, p, x) && Has(s, p + |x|, y)
  {
    assert s[p..p + |x|] == (x + y)[..|x|] == x;
    assert s[p + |x|..p + |x| + |y|] == (x + y)[|x|..] == y;
  }

  /** A place where a line stops: the end or a closing parenthesis. */
  predicate Stop(s: string, e: nat) {
    e == |s| || (e < |s| && s[e] == ')')
  }

  lemma NoSkip(s: string, p: nat)
    requires p <= |s| && !Space(At(s, p))
    ensures Skip(s, p) == p
  {
  }

  /** A symbol other than > is a token of one character. */
  lemma SymbolToken(s: string, p: nat)
    requires CString(s) && p < |s| && Symbol(s[p]) && s[p] != '>' && !Space(At(s, p + 1))
    ensures Look(s, p) == s[p] && NextToken(s, p) == Token(s[p], p, p + 1, p + 1)
  {
    NoSkip(s, p);
    NoSkip(s, p + 1);
  }

  lemma {:induction false} WordEnds(s: string, p: nat, e: nat)
    requires p <= e <= |s| && (forall i :: p <= i < e ==> Plain(s[i])) && (e < |s| ==> Space(s[e]) || Symbol(s[e]))
    ensures WordEnd(s, p) == e
    decreases e - p
  {
    if p < e {
      WordEnds(s, p + 1, e);
    }
  }

  lemma WordToken(s: string, p: nat, e: nat)
    requires CString(s) && p < e <= |s| && (forall i :: p <= i < e ==> Plain(s[i]))
    requires (e < |s| ==> Space(s[e]) || Symbol(s[e]))
    ensures Look(s, p) == s[p] && NextToken(s, p) == Token('a', p, e, Skip(s, e))
  {
    assert Plain(s[p]);
    NoSkip(s, p);
    WordEnds(s, p, e);
  }

  // ---------------------------------------------------------------- the start of a rendering

  /** A line begins with a word, an opening parenthesis, or is empty. */
  lemma Begins(t: Tree, s: string, p: nat)
    requires Writable(t) && Has(s, p, Render(t)) && Stop(s, p + |Render(t)|) && CString(s)
    ensures !Space(At(s, p)) && Skip(s, p) == p
    ensures t.TExec? ==>
      At(s, p) != '(' && At(s, p) != '<' && At(s, p) != '>' && At(s, p) != '|' && At(s, p) != '&' && At(s, p) != ';'
    ensures !t.TExec? ==> At(s, p) == '('
  {
    if t.TExec? {
      if t.args != [] {
        assert PlainWord(t.args[0]);
        assert Render(t)[0] == t.args[0][0];
        assert s[p] == Render(t)[0];
      }
    } else {
      assert Render(t)[0] == '(';
      assert s[p] == Render(t)[0];
    }
    NoSkip(s, p);
  }

  // ---------------------------------------------------------------- words

  lemma WordsBegin(args: seq<string>, s: string, p: nat)
    requires (forall i :: 0 <= i < |args| ==> PlainWord(args[i])) && Has(s, p, Words(args))
    requires Stop(s, p + |Words(args)|) && CString(s)
    ensures Skip(s, p) == p && Look(s, p) != '<' && Look(s, p) != '>'
  {
    assert Writable(TExec(args)) || MAXARGS <= |args|;
    if args != [] {
      assert PlainWord(args[0]);
      assert Words(args)[0] == args[0][0];
      assert s[p] == Words(args)[0];
    }
    NoSkip(s, p);
  }

  /** The text of the first word, and that of the others. */
  lemma FirstText(args: seq<string>, s: string, p: nat)
    requires args != [] && PlainWord(args[0]) && Has(s, p, Words(args))
    ensures var e := p + |args[0]|; e < |s| && s[e] == ' ' && s[p..e] == args[0] && Has(s, e + 1, Words(args[1..]))
    ensures p + |args[0]| + 1 + |Words(args[1..])| == p + |Words(args)|
    ensures forall i :: p <= i < p + |args[0]| ==> Plain(s[i])
  {
    var w, rest := args[0], Words(args[1..]);
    var e := p + |w|;
    HasConcat(s, p, w + " ", rest);
    HasConcat(s, p, w, " ");
    assert s[e] == s[e..e + 1][0];
    forall i | p <= i < e ensures Plain(s[i]) {
      assert s[i] == s[p..e][i - p];
    }
  }

  lemma SkipOne(s: string, p: nat)
    requires p < |s| && Space(s[p]) && Skip(s, p + 1) == p + 1
    ensures Skip(s, p) == p + 1
  {
  }

  /** The token of the first word, and the position of the next. */
  lemma FirstWord(args: seq<string>, s: string, p: nat)
    requires args != [] && (forall i :: 0 <= i < |args| ==> PlainWord(args[i])) && CString(s)
    requires Has(s, p, Words(args)) && Stop(s, p + |Words(args)|)
    ensures var e := p + |args[0]|;
      NextToken(s, p) == Token('a', p, e, e + 1) && Word(s, Span(p, e)) == args[0] && !EndsExec(Look(s, p))
    ensures var n := p + |args[0]| + 1; Has(s, n, Words(args[1..])) && n + |Words(args[1..])| == p + |Words(args)|
    ensures Skip(s, p + |args[0]| + 1) == p + |args[0]| + 1 && Look(s, p + |args[0]| + 1) != '<'
    ensures Look(s, p + |args[0]| + 1) != '>'
  {
    assert PlainWord(args[0]);
    FirstText(args, s, p);
    var e := p + |args[0]|;
    WordToken(s, p, e);
    WordsBegin(args[1..], s, e + 1);
    SkipOne(s, e);
    assert Plain(s[p]);
  }

  /** One turn of the loop over the arguments. */
  lemma ArgsStep(spans: seq<Span>, s: string, p: nat, a: Span)
    requires CString(s) && p <= |s| && a.eq < |s| && |spans| + 1 < MAXARGS && !EndsExec(Look(s, p))
    requires NextToken(s, p) == Token('a', a.q, a.eq, a.eq + 1)
    requires Skip(s, a.eq + 1) == a.eq + 1 && Look(s, a.eq + 1) != '<' && Look(s, a.eq + 1) != '>'
    ensures Args(s, Exec(spans), |spans|, p) == Args(s, Exec(spans + [a]), |spans + [a]|, a.eq + 1)
  {
    assert Redirs(s, Exec(spans + [a]), a.eq + 1) == Ok(Exec(spans + [a]), a.eq + 1);
  }

  lemma ArgsTurn(spans: seq<Span>, args: seq<string>, s: string, p: nat, a: Span)
    requires args != [] && |spans| + |args| < MAXARGS && (forall i :: 0 <= i < |args| ==> PlainWord(args[i]))
    requires CString(s)
    requires Has(s, p, Words(args)) && Stop(s, p + |Words(args)|) && a == Span(p, p + |args[0]|)
    ensures a.eq < |s| && Word(s, a) == args[0]
    ensures Args(s, Exec(spans), |spans|, p) == Args(s, Exec(spans + [a]), |spans + [a]|, a.eq + 1)
    ensures Has(s, a.eq + 1, Words(args[1..])) && a.eq + 1 + |Words(args[1..])| == p + |Words(args)|
  {
    FirstWord(args, s, p);
    ArgsStep(spans, s, p, a);
  }

  ghost predicate Parsed(r: Result, spans: seq<Span>, args: seq<string>, s: string, e: nat) {
    && r.Ok? && r.pos == e && r.cmd.Exec? && |r.cmd.args| == |spans| + |args| && r.cmd.args[..|spans|] == spans
    && (forall i :: 0 <= i < |args| ==> Word(s, r.cmd.args[|spans| + i]) == args[i])
  }

  lemma ParsedStep(r: Result, spans: seq<Span>, a: Span, args: seq<string>, s: string, e: nat)
    requires args != [] && Parsed(r, spans + [a], args[1..], s, e) && Word(s, a) == args[0]
    ensures Parsed(r, spans, args, s, e)
  {
    assert r.cmd.args[..|spans|] == r.cmd.args[..|spans| + 1][..|spans|];
    forall i | 0 <= i < |args| ensures Word(s, r.cmd.args[|spans| + i]) == args[i] {
      if i == 0 {
        assert r.cmd.args[|spans|] == r.cmd.args[..|spans| + 1][|spans|];
      } else {
        assert args[i] == args[1..][i - 1];
      }
    }
  }

  lemma ArgsEnd(spans: seq<Span>, s: string, p: nat)
    requires |spans| < MAXARGS && CString(s) && p <= |s| && Stop(s, p)
    ensures Parsed(Args(s, Exec(spans), |spans|, p), spans, [], s, p)
  {
    NoSkip(s, p);
  }

  lemma {:induction false} ArgsParse(spans: seq<Span>, args: seq<string>, s: string, p: nat, end: nat)
    requires |spans| + |args| < MAXARGS && (forall i :: 0 <= i < |args| ==> PlainWord(args[i])) && CString(s)
    requires Has(s, p, Words(args)) && end == p + |Words(args)| && Stop(s, end)
    ensures Parsed(Args(s, Exec(spans), |spans|, p), spans, args, s, end)
    decreases |args|
  {
    if args == [] {
      ArgsEnd(spans, s, p);
    } else {
      var a := Span(p, p + |args[0]|);
      ArgsTurn(spans, args, s, p, a);
      ArgsParse(spans + [a], args[1..], s, a.eq + 1, end);
      ParsedStep(Args(s, Exec(spans), |spans|, p), spans, a, args, s, end);
    }
  }

  lemma ExecIsArgs(s: string, p: nat)
    requires CString(s) && p <= |s| && Skip(s, p) == p && At(s, p) != '(' && At(s, p) != '<' && At(s, p) != '>'
    ensures ParseExec(s, p) == Args(s, Exec([]), 0, p)
  {
    assert Redirs(s, Exec([]), p) == Ok(Exec([]), p);
  }

  lemma ExecMeaning(r: Result, args: seq<string>, s: string, e: nat)
    requires Parsed(r, [], args, s, e)
    ensures Meaning(s, r.cmd) == TExec(args)
  {
    assert Meaning(s, r.cmd).args == args;
  }

  /** A line of words. */
  lemma ExecParses(args: seq<string>, s: string, p: nat)
    requires Writable(TExec(args)) && CString(s) && Has(s, p, Words(args)) && Stop(s, p + |Words(args)|)
    ensures Yields(s, p, TExec(args), p + |Words(args)|)
  {
    var e := p + |Words(args)|;
    Begins(TExec(args), s, p);
    ExecIsArgs(s, p);
    ArgsParse([], args, s, p, e);
    var r := Args(s, Exec([]), 0, p);
    ExecMeaning(r, args, s, e);
    OneLine(s, p, r.cmd, e);
  }

  // ---------------------------------------------------------------- blocks

  /** The text x in parentheses, from p to f. */
  predicate Block(s: string, p: nat, x: string, f: nat) {
    f == p + |x| + 2 && f <= |s| && s[p] == '(' && Has(s, p + 1, x) && s[f - 1] == ')'
  }

  lemma BlockText(s: string, p: nat, x: string, y: string)
    requires Has(s, p, "(" + x + ")" + y)
    ensures Block(s, p, x, p + |x| + 2) && Has(s, p + |x| + 2, y)
  {
    var e := p + |x| + 1;
    HasConcat(s, p, "(" + x + ")", y);
    HasConcat(s, p, "(" + x, ")");
    HasConcat(s, p, "(", x);
    assert s[p] == s[p..p + 1][0] && s[e] == s[e..e + 1][0];
  }

  /** A block parses to its tree, followed by redirections. */
  lemma BlockParses(t: Tree, s: string, p: nat, f: nat) returns (c: Cmd)
    requires Writable(t) && CString(s) && Block(s, p, Render(t), f) && !Space(At(s, f))
    ensures Meaning(s, c) == t && Look(s, p) == '(' && Skip(s, p) == p && ParseExec(s, p) == Redirs(s, c, f)
    decreases Size(t), 8
  {
    Begins(t, s, p + 1);
    LineParses(t, s, p + 1);
    c := ParseLine(s, p + 1).cmd;
    BlockOf(s, p, c, f - 1);
  }

  lemma BlockOf(s: string, p: nat, c: Cmd, e: nat)
    requires CString(s) && p < e < |s| && s[p] == '(' && s[e] == ')' && !Space(At(s, p + 1)) && !Space(At(s, e + 1))
    requires ParseLine(s, p + 1) == Ok(c, e)
    ensures Look(s, p) == '(' && Skip(s, p) == p && ParseExec(s, p) == Redirs(s, c, e + 1)
  {
    NoSkip(s, p);
    SymbolToken(s, p);
    SymbolToken(s, e);
  }

  /** With no redirection behind it, a block is a whole exec command. */
  lemma PlainBlock(t: Tree, s: string, p: nat, f: nat) returns (c: Cmd)
    requires Writable(t) && CString(s) && Block(s, p, Render(t), f) && !Space(At(s, f)) && At(s, f) != '<'
    requires At(s, f) != '>'
    ensures Meaning(s, c) == t && ParseExec(s, p) == Ok(c, f)
    decreases Size(t), 9
  {
    c := BlockParses(t, s, p, f);
    NoSkip(s, f);
  }

  /** Parsing the rendering of a tree, up to a stop, gives the tree. */
  lemma LineParses(t: Tree, s: string, p: nat)
    requires Writable(t) && CString(s) && Has(s, p, Render(t)) && Stop(s, p + |Render(t)|)
    ensures Yields(s, p, t, p + |Render(t)|)
    decreases Size(t), 7
  {
    match t
    case TExec(args) => ExecParses(args, s, p);
    case TRedir(c, file, mode) => RedirParses(t, s, p);
    case TPipe(l, r) => PipeParses(t, s, p);
    case TList(l, r) => ListParses(t, s, p);
    case TBack(c) => BackParses(t, s, p);
  }

  /** A line that is one pipeline. */
  lemma OnePipe(s: string, p: nat, c: Cmd, e: nat)
    requires CString(s) && p <= |s| && e <= |s| && ParsePipe(s, p) == Ok(c, e) && Stop(s, e)
    ensures ParseLine(s, p) == Ok(c, e)
  {
    NoSkip(s, e);
    assert Backs(s, c, e) == Ok(c, e);
  }

  /** A pipeline of one command. */
  lemma OneExec(s: string, p: nat, c: Cmd, e: nat)
    requires CString(s) && p <= |s| && e <= |s| && ParseExec(s, p) == Ok(c, e) && !Space(At(s, e)) && At(s, e) != '|'
    ensures ParsePipe(s, p) == Ok(c, e)
  {
    NoSkip(s, e);
  }

  lemma TwoExecs(s: string, p: nat, c1: Cmd, f: nat, c2: Cmd, e: nat)
    requires CString(s) && p <= |s| && f < |s| && e <= |s| && ParseExec(s, p) == Ok(c1, f) && Look(s, f) == '|'
    requires NextToken(s, f).next == f + 1
    requires ParsePipe(s, f + 1) == Ok(c2, e)
    ensures ParsePipe(s, p) == Ok(Pipe(c1, c2), e)
  {
  }

  lemma TwoLines(s: string, p: nat, c1: Cmd, f: nat, c2: Cmd, e: nat)
    requires CString(s) && p <= |s| && f < |s| && e <= |s| && ParsePipe(s, p) == Ok(c1, f) && s[f] == ';'
    requires NextToken(s, f).next == f + 1
    requires ParseLine(s, f + 1) == Ok(c2, e)
    ensures ParseLine(s, p) == Ok(List(c1, c2), e)
  {
    NoSkip(s, f);
    assert Backs(s, c1, f) == Ok(c1, f);
  }

  lemma BackLine(s: string, p: nat, c1: Cmd, f: nat)
    requires CString(s) && p <= |s| && f < |s| && ParsePipe(s, p) == Ok(c1, f) && Look(s, f) == '&'
    requires NextToken(s, f).next == f + 1
    requires Stop(s, f + 1)
    ensures ParseLine(s, p) == Ok(Back(c1), f + 1)
  {
    NoSkip(s, f + 1);
    assert Backs(s, Back(c1), f + 1) == Ok(Back(c1), f + 1);
    assert Backs(s, c1, f) == Ok(Back(c1), f + 1);
  }

  /** Two blocks with a separator between them. */
  predicate BlocksAt(u: string, v: string, sep: char, s: string, p: nat, f: nat, e: nat) {
    Block(s, p, u, f) && f + 1 < |s| && s[f] == sep && s[f + 1] == '(' && Block(s, f + 1, v, e)
  }

  lemma TwoBlocks(u: string, v: string, sep: char, s: string, p: nat)
    requires Has(s, p, "(" + u + ")" + ([sep] + ("(" + v + ")")))
    ensures BlocksAt(u, v, sep, s, p, p + |u| + 2, p + |u| + |v| + 5)
  {
    var f := p + |u| + 2;
    BlockText(s, p, u, [sep] + ("(" + v + ")"));
    HasConcat(s, f, [sep], "(" + v + ")");
    assert s[f] == s[f..f + 1][0];
    assert "(" + v + ")" == "(" + v + ")" + "";
    BlockText(s, f + 1, v, "");
  }

  lemma OneLine(s: string, p: nat, c: Cmd, e: nat)
    requires CString(s) && p <= |s| && e <= |s| && ParseExec(s, p) == Ok(c, e) && Stop(s, e)
    ensures ParsePipe(s, p) == Ok(c, e) && ParseLine(s, p) == Ok(c, e)
  {
    OneExec(s, p, c, e);
    OnePipe(s, p, c, e);
  }

  /** A block as a line of its own. */
  lemma BlockLine(t: Tree, s: string, p: nat, e: nat) returns (c: Cmd)
    requires Writable(t) && CString(s) && Block(s, p, Render(t), e) && Stop(s, e)
    ensures Meaning(s, c) == t && ParsePipe(s, p) == Ok(c, e) && ParseLine(s, p) == Ok(c, e)
    decreases Size(t), 10
  {
    c := PlainBlock(t, s, p, e);
    OneLine(s, p, c, e);
  }

  /** ParseLine() yields the tree t and stops at e. */
  ghost predicate Yields(s: string, p: nat, t: Tree, e: nat) {
    CString(s) && p <= |s| && var r := ParseLine(s, p); r.Ok? && r.pos == e && Meaning(s, r.cmd) == t
  }

  lemma PipeOf(s: string, p: nat, c1: Cmd, f: nat, c2: Cmd, e: nat)
    requires CString(s) && p <= |s| && f + 1 < |s| && s[f] == '|' && s[f + 1] == '(' && e <= |s| && Stop(s, e)
    requires ParseExec(s, p) == Ok(c1, f) && ParsePipe(s, f + 1) == Ok(c2, e)
    ensures Yields(s, p, TPipe(Meaning(s, c1), Meaning(s, c2)), e)
  {
    SymbolToken(s, f);
    TwoExecs(s, p, c1, f, c2, e);
    OnePipe(s, p, Pipe(c1, c2), e);
  }

  lemma ListOf(s: string, p: nat, c1: Cmd, f: nat, c2: Cmd, e: nat)
    requires CString(s) && p <= |s| && f + 1 < |s| && s[f] == ';' && s[f + 1] == '(' && e <= |s|
    requires ParseExec(s, p) == Ok(c1, f) && ParseLine(s, f + 1) == Ok(c2, e)
    ensures Yields(s, p, TList(Meaning(s, c1), Meaning(s, c2)), e)
  {
    SymbolToken(s, f);
    OneExec(s, p, c1, f);
    TwoLines(s, p, c1, f, c2, e);
  }

  lemma PipeAt(l: Tree, r: Tree, s: string, p: nat, f: nat, e: nat)
    requires Writable(l) && Writable(r) && CString(s) && BlocksAt(Render(l), Render(r), '|', s, p, f, e) && Stop(s, e)
    ensures Yields(s, p, TPipe(l, r), e)
    decreases Size(l) + Size(r) + 1, 3
  {
    var c1 := PlainBlock(l, s, p, f);
    var c2 := BlockLine(r, s, f + 1, e);
    PipeOf(s, p, c1, f, c2, e);
  }

  lemma PipeParses(t: Tree, s: string, p: nat)
    requires t.TPipe? && Writable(t) && CString(s) && Has(s, p, Render(t)) && Stop(s, p + |Render(t)|)
    ensures Yields(s, p, t, p + |Render(t)|)
    decreases Size(t), 6
  {
    assert Render(t) == "(" + Render(t.left) + ")" + (['|'] + ("(" + Render(t.right) + ")"));
    TwoBlocks(Render(t.left), Render(t.right), '|', s, p);
    PipeAt(t.left, t.right, s, p, p + |Render(t.left)| + 2, p + |Render(t)|);
  }

  lemma ListAt(l: Tree, r: Tree, s: string, p: nat, f: nat, e: nat)
    requires Writable(l) && Writable(r) && CString(s) && BlocksAt(Render(l), Render(r), ';', s, p, f, e) && Stop(s, e)
    ensures Yields(s, p, TList(l, r), e)
    decreases Size(l) + Size(r) + 1, 3
  {
    var c1 := PlainBlock(l, s, p, f);
    var c2 := BlockLine(r, s, f + 1, e);
    ListOf(s, p, c1, f, c2, e);
  }

  lemma ListParses(t: Tree, s: string, p: nat)
    requires t.TList? && Writable(t) && CString(s) && Has(s, p, Render(t)) && Stop(s, p + |Render(t)|)
    ensures Yields(s, p, t, p + |Render(t)|)
    decreases Size(t), 6
  {
    assert Render(t) == "(" + Render(t.left) + ")" + ([';'] + ("(" + Render(t.right) + ")"));
    TwoBlocks(Render(t.left), Render(t.right), ';', s, p);
    ListAt(t.left, t.right, s, p, p + |Render(t.left)| + 2, p + |Render(t)|);
  }

  lemma BackAt(c: Tree, s: string, p: nat, f: nat)
    requires Writable(c) && CString(s) && Block(s, p, Render(c), f) && f < |s| && s[f] == '&' && Stop(s, f + 1)
    ensures Yields(s, p, TBack(c), f + 1)
    decreases Size(c) + 1, 2
  {
    var c1 := PlainBlock(c, s, p, f);
    SymbolToken(s, f);
    OneExec(s, p, c1, f);
    BackLine(s, p, c1, f);
  }

  lemma BackParses(t: Tree, s: string, p: nat)
    requires t.TBack? && Writable(t) && CString(s) && Has(s, p, Render(t)) && Stop(s, p + |Render(t)|)
    ensures Yields(s, p, t, p + |Render(t)|)
    decreases Size(t), 6
  {
    assert Render(t) == "(" + Render(t.cmd) + ")" + "&";
    BlockText(s, p, Render(t.cmd), "&");
    assert s[p + |Render(t.cmd)| + 2] == s[p + |Render(t.cmd)| + 2..p + |Render(t)|][0];
    BackAt(t.cmd, s, p, p + |Render(t.cmd)| + 2);
  }

  lemma FileText(s: string, f: nat, op: string, file: string)
    requires Has(s, f, op + file) && |op| == 1 && PlainWord(file)
    ensures s[f] == op[0] && s[f + 1..f + 1 + |file|] == file && forall i :: f + 1 <= i < f + 1 + |file| ==> Plain(s[i])
  {
    HasConcat(s, f, op, file);
    assert s[f] == s[f..f + 1][0];
    forall i | f + 1 <= i < f + 1 + |file| ensures Plain(s[i]) {
      assert s[i] == s[f + 1..f + 1 + |file|][i - f - 1];
    }
  }

  lemma OperatorToken(s: string, f: nat)
    requires CString(s) && f + 1 < |s| && (s[f] == '<' || s[f] == '>') && Plain(s[f + 1])
    ensures Look(s, f) == s[f] && NextToken(s, f) == Token(s[f], f, f + 1, f + 1) && Skip(s, f) == f
  {
    NoSkip(s, f);
    NoSkip(s, f + 1);
  }

  lemma OneRedir(s: string, c: Cmd, f: nat, e: nat)
    requires CString(s) && f + 1 < e <= |s| && (s[f] == '<' || s[f] == '>') && Look(s, f) == s[f]
    requires NextToken(s, f) == Token(s[f], f, f + 1, f + 1)
    requires NextToken(s, f + 1) == Token('a', f + 1, e, e) && Stop(s, e)
    ensures Redirs(s, c, f) == Ok(Redir(c, Span(f + 1, e), if s[f] == '<' then Input else Output), e)
  {
    NoSkip(s, e);
    var d := Redir(c, Span(f + 1, e), if s[f] == '<' then Input else Output);
    assert Redirs(s, d, e) == Ok(d, e);
  }

  /** A redirection behind a block. */
  lemma FileParses(s: string, c: Cmd, f: nat, file: string, mode: Mode)
    requires CString(s) && PlainWord(file) && Has(s, f, (if mode == Input then "<" else ">") + file)
    requires Stop(s, f + 1 + |file|)
    ensures Redirs(s, c, f) == Ok(Redir(c, Span(f + 1, f + 1 + |file|), mode), f + 1 + |file|)
    ensures Word(s, Span(f + 1, f + 1 + |file|)) == file
  {
    var e := f + 1 + |file|;
    FileText(s, f, if mode == Input then "<" else ">", file);
    assert Plain(s[f + 1]);
    OperatorToken(s, f);
    NoSkip(s, e);
    WordToken(s, f + 1, e);
    OneRedir(s, c, f, e);
  }

  lemma RedirAt(c: Tree, file: string, mode: Mode, s: string, p: nat, f: nat, e: nat)
    requires Writable(c) && PlainWord(file) && CString(s) && Block(s, p, Render(c), f) && e == f + 1 + |file|
    requires Has(s, f, (if mode == Input then "<" else ">") + file) && Stop(s, e)
    ensures Yields(s, p, TRedir(c, file, mode), e)
    decreases Size(c) + 1, 2
  {
    assert s[f] == s[f..e][0];
    var c1 := BlockParses(c, s, p, f);
    FileParses(s, c1, f, file, mode);
    var d := Redir(c1, Span(f + 1, e), mode);
    OneExec(s, p, d, e);
    OnePipe(s, p, d, e);
  }

  lemma RedirParses(t: Tree, s: string, p: nat)
    requires t.TRedir? && Writable(t) && CString(s) && Has(s, p, Render(t)) && Stop(s, p + |Render(t)|)
    ensures Yields(s, p, t, p + |Render(t)|)
    decreases Size(t), 6
  {
    var y := (if t.mode == Input then "<" else ">") + t.file;
    assert Render(t) == "(" + Render(t.cmd) + ")" + y;
    BlockText(s, p, Render(t.cmd), y);
    RedirAt(t.cmd, t.file, t.mode, s, p, p + |Render(t.cmd)| + 2, p + |Render(t)|);
  }

  // ---------------------------------------------------------------- the round trip

  lemma {:induction false} RenderIsCString(t: Tree)
    requires Writable(t)
    ensures CString(Render(t))
  {
    match t
    case TExec(args) => WordsAreCString(args);
    case TRedir(c, file, mode) => RenderIsCString(c);
    case TPipe(l, r) => RenderIsCString(l); RenderIsCString(r);
    case TList(l, r) => RenderIsCString(l); RenderIsCString(r);
    case TBack(c) => RenderIsCString(c);
  }

  lemma {:induction false} WordsAreCString(args: seq<string>)
    requires forall i :: 0 <= i < |args| ==> PlainWord(args[i])
    ensures CString(Words(args))
  {
    if args != [] {
      assert PlainWord(args[0]);
      WordsAreCString(args[1..]);
    }
  }

  /** parsecmd() of the rendering of any tree gives that tree. */
  lemma RoundTrip(t: Tree)
    requires Writable(t)
    ensures CString(Render(t))
    ensures var r := ParseCmd(Render(t)); r.Ok? && Meaning(Render(t), r.cmd) == t
  {
    RenderIsCString(t);
    var s := Render(t);
    assert s[0..|s|] == s;
    LineParses(t, s, 0);
    NoSkip(s, |s|);
  }
}
