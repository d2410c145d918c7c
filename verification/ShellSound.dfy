/**
  Every line that the parser takes is one of the grammar; so it takes exactly those,
  and the tree of a line is that of the grammar.
*/
module ShellSound {
  import opened ShellParser
  import opened ShellRoundTrip
  import opened ShellGrammar
  import ShellComplete

  /** A token and what follows it. */
  lemma First(s: string, p: nat)
    requires CString(s) && p <= |s| && NextToken(s, p).kind != NUL
    ensures Toks(s, p) == [TokOf(s, NextToken(s, p))] + Toks(s, NextToken(s, p).next)
  {
  }

  lemma Joins<T>(all: seq<T>, a: seq<T>, mid: seq<T>, b: seq<T>, rest: seq<T>)
    requires all == a + mid && mid == b + rest
    ensures all == a + b + rest
  {
  }

  // ---------------------------------------------------------------- redirections

  lemma FirstRedir(s: string, p: nat, x: Redirection, more: seq<Redirection>, r: Result, t: Tree)
    requires CString(s) && p <= |s| && NextToken(s, p).kind == x.op && (x.op == '<' || x.op == '>' || x.op == '+')
    requires var w := NextToken(s, NextToken(s, p).next);
      && w.kind == 'a' && x.file == s[w.q..w.eq] && RedirsOk(more)
      && Covers(s, w.next, r, Wrap(TRedir(t, x.file, ModeOf(x.op)), more), RedirToks(more))
    ensures RedirsOk([x] + more) && Covers(s, p, r, Wrap(t, [x] + more), RedirToks([x] + more))
  {
    var q := NextToken(s, p).next;
    var w := NextToken(s, q);
    First(s, p);
    First(s, q);
    RedirsFirst(t, x, more);
    assert PlainWord(x.file);
    Joins(Toks(s, q), [TWord(x.file)], Toks(s, w.next), RedirToks(more), Toks(s, r.pos));
    Joins(Toks(s, p), [TSym(x.op)], Toks(s, q), [TWord(x.file)] + RedirToks(more), Toks(s, r.pos));
  }

  lemma RedirsFirst(t: Tree, x: Redirection, more: seq<Redirection>)
    ensures Wrap(t, [x] + more) == Wrap(TRedir(t, x.file, ModeOf(x.op)), more)
    ensures RedirToks([x] + more) == [TSym(x.op)] + ([TWord(x.file)] + RedirToks(more))
    ensures RedirOk(x) && RedirsOk(more) ==> RedirsOk([x] + more)
  {
    assert ([x] + more)[1..] == more;
  }

  lemma {:induction false} RedirsSound(s: string, cmd: Cmd, p: nat) returns (rs: seq<Redirection>)
    requires CString(s) && p <= |s| && Redirs(s, cmd, p).Ok?
    ensures RedirsOk(rs) && Covers(s, p, Redirs(s, cmd, p), Wrap(Meaning(s, cmd), rs), RedirToks(rs))
    decreases |s| - p
  {
    if Look(s, p) == '<' || Look(s, p) == '>' {
      var x, d, q := RedirSound(s, cmd, p);
      var more := RedirsSound(s, d, q);
      FirstRedir(s, p, x, more, Redirs(s, cmd, p), Meaning(s, cmd));
      rs := [x] + more;
    } else {
      NoRedirs(s, cmd, p);
      rs := [];
    }
  }

  /** The next redirection. */
  lemma RedirSound(s: string, cmd: Cmd, p: nat) returns (x: Redirection, d: Cmd, q: nat)
    requires CString(s) && p <= |s| && Redirs(s, cmd, p).Ok? && (Look(s, p) == '<' || Look(s, p) == '>')
    ensures NextToken(s, p).kind == x.op && (x.op == '<' || x.op == '>' || x.op == '+')
    ensures var w := NextToken(s, NextToken(s, p).next); w.kind == 'a' && x.file == s[w.q..w.eq] && q == w.next
    ensures p < q <= |s| && Redirs(s, cmd, p) == Redirs(s, d, q)
    ensures Meaning(s, d) == TRedir(Meaning(s, cmd), x.file, ModeOf(x.op))
  {
    RedirsIs(s, cmd, p);
    Sees(s, p);
    var t := NextToken(s, p);
    var w := NextToken(s, t.next);
    x, d, q := Redirection(t.kind, s[w.q..w.eq]), Redir(cmd, Span(w.q, w.eq), ModeOf(t.kind)), w.next;
  }

  lemma NoRedirs(s: string, cmd: Cmd, p: nat)
    requires CString(s) && p <= |s| && Look(s, p) != '<' && Look(s, p) != '>'
    ensures Covers(s, p, Redirs(s, cmd, p), Wrap(Meaning(s, cmd), []), RedirToks([]))
  {
    SkipsSpace(s, p);
  }

  // ---------------------------------------------------------------- simple commands

  lemma NoArgs(s: string, cmd: Cmd, argc: nat, p: nat)
    requires CString(s) && p <= |s| && (EndsExec(Look(s, p)) || NextToken(s, p).kind == NUL)
    ensures Covers(s, p, Args(s, cmd, argc, p), Meaning(s, cmd), ArgToks([]))
  {
    SkipsSpace(s, p);
    Sees(s, p);
  }

  lemma FirstArg(s: string, p: nat, m: Result, x: Arg, more: seq<Arg>, r: Result, t: Tree)
    requires CString(s) && p <= |s| && NextToken(s, p).kind == 'a' && ArgsOk(more) && RedirsOk(x.after)
    requires x.word == s[NextToken(s, p).q..NextToken(s, p).eq]
    requires m.Ok? && m.pos <= |s| && Toks(s, NextToken(s, p).next) == RedirToks(x.after) + Toks(s, m.pos)
    requires Covers(s, m.pos, r, t, ArgToks(more))
    ensures ArgsOk([x] + more) && Covers(s, p, r, t, ArgToks([x] + more))
  {
    First(s, p);
    ArgsFirst(x, more);
    assert PlainWord(x.word);
    Joins(Toks(s, NextToken(s, p).next), RedirToks(x.after), Toks(s, m.pos), ArgToks(more), Toks(s, r.pos));
    var toks := RedirToks(x.after) + ArgToks(more);
    Joins(Toks(s, p), [TWord(x.word)], Toks(s, NextToken(s, p).next), toks, Toks(s, r.pos));
  }

  lemma {:induction false} ArgsFirst(x: Arg, more: seq<Arg>)
    ensures ArgToks([x] + more) == [TWord(x.word)] + (RedirToks(x.after) + ArgToks(more))
    ensures PlainWord(x.word) && RedirsOk(x.after) && ArgsOk(more) ==> ArgsOk([x] + more)
  {
    assert ([x] + more)[1..] == more;
    ShellComplete.Associate([TWord(x.word)], RedirToks(x.after), ArgToks(more), []);
  }

  lemma {:induction false} ArgsSound(s: string, cmd: Cmd, ws: seq<string>, rs: seq<Redirection>, p: nat)
    returns (args: seq<Arg>)
    requires CString(s) && p <= |s| && |ws| < MAXARGS && Args(s, cmd, |ws|, p).Ok?
    requires Meaning(s, cmd) == Wrap(TExec(ws), rs)
    ensures ArgsOk(args) && |ws| + |args| < MAXARGS
    ensures Covers(s, p, Args(s, cmd, |ws|, p), Wrap(TExec(ws + WordsOf(args)), rs + RedirsOf(args)), ArgToks(args))
    decreases |s| - p
  {
    if EndsExec(Look(s, p)) || NextToken(s, p).kind == NUL {
      NoArgs(s, cmd, |ws|, p);
      args := [];
      assert ws + WordsOf(args) == ws && rs + RedirsOf(args) == rs;
    } else {
      var x, m := ArgSound(s, cmd, ws, rs, p);
      var more := ArgsSound(s, m.cmd, ws + [x.word], rs + x.after, m.pos);
      args := [x] + more;
      MoreArgs(x, more, ws, rs);
      FirstArg(s, p, m, x, more, Args(s, cmd, |ws|, p), Wrap(TExec(ws + WordsOf(args)), rs + RedirsOf(args)));
    }
  }

  /** The next argument and its redirections. */
  lemma ArgSound(s: string, cmd: Cmd, ws: seq<string>, rs: seq<Redirection>, p: nat) returns (x: Arg, m: Result)
    requires CString(s) && p <= |s| && |ws| < MAXARGS && Args(s, cmd, |ws|, p).Ok?
    requires Meaning(s, cmd) == Wrap(TExec(ws), rs) && !EndsExec(Look(s, p)) && NextToken(s, p).kind != NUL
    ensures m.Ok? && p < m.pos <= |s| && |ws| + 1 < MAXARGS && RedirsOk(x.after)
    ensures NextToken(s, p).kind == 'a' && x.word == s[NextToken(s, p).q..NextToken(s, p).eq]
    ensures Args(s, cmd, |ws|, p) == Args(s, m.cmd, |ws| + 1, m.pos)
    ensures Toks(s, NextToken(s, p).next) == RedirToks(x.after) + Toks(s, m.pos)
    ensures Meaning(s, m.cmd) == Wrap(TExec(ws + [x.word]), rs + x.after)
  {
    ArgsGo(s, cmd, |ws|, p);
    ArgsIs(s, cmd, |ws|, p);
    var t := NextToken(s, p);
    var a := Span(t.q, t.eq);
    m := Redirs(s, AddArg(cmd, a), t.next);
    var after := RedirsSound(s, AddArg(cmd, a), t.next);
    ArgMeans(s, cmd, a, ws, rs, after);
    x := Arg(Word(s, a), after);
  }

  /** What stands between the ends of a command is a word, and there is room for it. */
  lemma ArgsGo(s: string, cmd: Cmd, argc: nat, p: nat)
    requires CString(s) && p <= |s| && Args(s, cmd, argc, p).Ok?
    requires !EndsExec(Look(s, p)) && NextToken(s, p).kind != NUL
    ensures NextToken(s, p).kind == 'a' && argc + 1 < MAXARGS
  {
  }

  lemma {:induction false} MoreArgs(x: Arg, more: seq<Arg>, ws: seq<string>, rs: seq<Redirection>)
    ensures ws + [x.word] + WordsOf(more) == ws + WordsOf([x] + more)
    ensures rs + x.after + RedirsOf(more) == rs + RedirsOf([x] + more)
  {
    assert ([x] + more)[1..] == more;
    ShellComplete.Associate(ws, [x.word], WordsOf(more), []);
    ShellComplete.Associate(rs, x.after, RedirsOf(more), []);
  }

  lemma SimpleSound(s: string, p: nat) returns (e: GExec)
    requires CString(s) && p <= |s| && Look(s, p) != '(' && ParseExec(s, p).Ok?
    ensures ExecOk(e) && Covers(s, p, ParseExec(s, p), ExecTree(e), ExecToks(e))
  {
    ExecIs(s, p);
    var r := Redirs(s, Exec([]), p);
    var before := RedirsSound(s, Exec([]), p);
    assert Meaning(s, Exec([])) == TExec([]);
    var args := ArgsSound(s, r.cmd, [], before, r.pos);
    e := Simple(before, args);
    assert [] + WordsOf(args) == WordsOf(args);
    Joins(Toks(s, p), RedirToks(before), Toks(s, r.pos), ArgToks(args), Toks(s, ParseExec(s, p).pos));
  }

  // ---------------------------------------------------------------- groups, pipelines and lines

  lemma GroupToks(s: string, p: nat, r: Result, line: GLine, r': Result, after: seq<Redirection>, t: Tree)
    requires CString(s) && p <= |s| && Look(s, p) == '(' && r.Ok? && r.pos <= |s| && Look(s, r.pos) == ')'
    requires Covers(s, NextToken(s, p).next, r, LineTree(line), LineToks(line))
    requires Covers(s, NextToken(s, r.pos).next, r', t, RedirToks(after))
    ensures Covers(s, p, r', t, ExecToks(Group(line, after)))
  {
    var q, q' := NextToken(s, p).next, NextToken(s, r.pos).next;
    Sees(s, p);
    Sees(s, r.pos);
    First(s, p);
    First(s, r.pos);
    Joins(Toks(s, r.pos), [TSym(')')], Toks(s, q'), RedirToks(after), Toks(s, r'.pos));
    Joins(Toks(s, q), LineToks(line), Toks(s, r.pos), [TSym(')')] + RedirToks(after), Toks(s, r'.pos));
    Joins(Toks(s, p), [TSym('(')], Toks(s, q), LineToks(line) + ([TSym(')')] + RedirToks(after)), Toks(s, r'.pos));
    ShellComplete.Associate([TSym('(')], LineToks(line), [TSym(')')], RedirToks(after));
  }

  lemma {:induction false} ExecSound(s: string, p: nat) returns (e: GExec)
    requires CString(s) && p <= |s| && ParseExec(s, p).Ok?
    ensures ExecOk(e) && Covers(s, p, ParseExec(s, p), ExecTree(e), ExecToks(e))
    decreases |s| - p, 1
  {
    if Look(s, p) == '(' {
      GroupIs(s, p);
      Sees(s, p);
      var r := ParseLine(s, NextToken(s, p).next);
      var line := LineSound(s, NextToken(s, p).next);
      var after := RedirsSound(s, r.cmd, NextToken(s, r.pos).next);
      e := Group(line, after);
      GroupToks(s, p, r, line, ParseExec(s, p), after, ExecTree(e));
    } else {
      e := SimpleSound(s, p);
    }
  }

  /** A symbol between two parts. */
  lemma Separated(s: string, p: nat, l: Result, a: seq<Tok>, c: char, r: Result, b: seq<Tok>)
    requires CString(s) && p <= |s| && l.Ok? && l.pos <= |s| && Look(s, l.pos) == c && (c == '|' || c == ';')
    requires Toks(s, p) == a + Toks(s, l.pos) && r.Ok? && r.pos <= |s|
    requires Toks(s, NextToken(s, l.pos).next) == b + Toks(s, r.pos)
    ensures Toks(s, p) == a + [TSym(c)] + b + Toks(s, r.pos)
  {
    Sees(s, l.pos);
    First(s, l.pos);
    Joins(Toks(s, l.pos), [TSym(c)], Toks(s, NextToken(s, l.pos).next), b, Toks(s, r.pos));
    Joins(Toks(s, p), a, Toks(s, l.pos), [TSym(c)] + b, Toks(s, r.pos));
    ShellComplete.Associate(a, [TSym(c)], b, []);
  }

  lemma Both(s: string, p: nat, l: Result, t: Tree, a: seq<Tok>, c: char, r: Result, u: Tree, b: seq<Tok>,
             whole: Result)
    requires Covers(s, p, l, t, a) && Look(s, l.pos) == c && (c == '|' || c == ';')
    requires Covers(s, NextToken(s, l.pos).next, r, u, b)
    requires whole == Ok(if c == '|' then Pipe(l.cmd, r.cmd) else List(l.cmd, r.cmd), r.pos)
    ensures Covers(s, p, whole, if c == '|' then TPipe(t, u) else TList(t, u), a + [TSym(c)] + b)
  {
    Separated(s, p, l, a, c, r, b);
  }

  lemma PipeIs(s: string, p: nat)
    requires CString(s) && p <= |s| && ParsePipe(s, p).Ok?
    ensures var l := ParseExec(s, p);
      && l.Ok?
      && (if Look(s, l.pos) == '|' then
            var r := ParsePipe(s, NextToken(s, l.pos).next);
            r.Ok? && ParsePipe(s, p) == Ok(Pipe(l.cmd, r.cmd), r.pos)
          else ParsePipe(s, p) == Ok(l.cmd, Skip(s, l.pos)))
  {
  }

  lemma {:induction false} PipeSound(s: string, p: nat) returns (g: GPipe)
    requires CString(s) && p <= |s| && ParsePipe(s, p).Ok?
    ensures PipeOk(g) && Covers(s, p, ParsePipe(s, p), PipeTree(g), PipeToks(g))
    decreases |s| - p, 2
  {
    PipeIs(s, p);
    var l := ParseExec(s, p);
    var e := ExecSound(s, p);
    if Look(s, l.pos) == '|' {
      Sees(s, l.pos);
      var rest := PipeSound(s, NextToken(s, l.pos).next);
      g := Piped(e, rest);
      var r := ParsePipe(s, NextToken(s, l.pos).next);
      Both(s, p, l, ExecTree(e), ExecToks(e), '|', r, PipeTree(rest), PipeToks(rest), ParsePipe(s, p));
    } else {
      SkipsSpace(s, l.pos);
      g := One(e);
    }
  }

  lemma {:induction false} BacksSound(s: string, cmd: Cmd, t: Tree, p: nat, r: Result) returns (n: nat)
    requires CString(s) && p <= |s| && r == Backs(s, cmd, p) && t == Meaning(s, cmd)
    ensures CoversBacks(s, p, r, t, n)
    decreases |s| - p, 1
  {
    if Look(s, p) == '&' {
      n := BackSound(s, cmd, t, p, r);
    } else {
      n := NoBack(s, cmd, t, p, r);
    }
  }

  lemma {:induction false} BackSound(s: string, cmd: Cmd, t: Tree, p: nat, r: Result) returns (n: nat)
    requires CString(s) && p <= |s| && r == Backs(s, cmd, p) && t == Meaning(s, cmd) && Look(s, p) == '&'
    ensures CoversBacks(s, p, r, t, n)
    decreases |s| - p, 0
  {
    var d, q := NextBack(s, cmd, p);
    var m := BacksSound(s, d, TBack(t), q, r);
    n := m + 1;
    FirstBack(s, p, q, r, t, m, n);
  }

  lemma NextBack(s: string, cmd: Cmd, p: nat) returns (d: Cmd, q: nat)
    requires CString(s) && p <= |s| && Look(s, p) == '&'
    ensures p < q <= |s| && Toks(s, p) == [TSym('&')] + Toks(s, q)
    ensures Backs(s, cmd, p) == Backs(s, d, q) && Meaning(s, d) == TBack(Meaning(s, cmd))
  {
    BacksIs(s, cmd, p);
    Sees(s, p);
    First(s, p);
    d, q := Back(cmd), NextToken(s, p).next;
  }

  lemma NoBack(s: string, cmd: Cmd, t: Tree, p: nat, r: Result) returns (n: nat)
    requires CString(s) && p <= |s| && r == Backs(s, cmd, p) && t == Meaning(s, cmd) && Look(s, p) != '&'
    ensures CoversBacks(s, p, r, t, n)
  {
    BacksIs(s, cmd, p);
    SkipsSpace(s, p);
    n := 0;
  }

  lemma FirstBack(s: string, p: nat, q: nat, r: Result, t: Tree, m: nat, n: nat)
    requires p <= |s| && CString(s) && q <= |s| && Toks(s, p) == [TSym('&')] + Toks(s, q)
    requires CoversBacks(s, q, r, TBack(t), m) && n == m + 1
    ensures CoversBacks(s, p, r, t, n)
  {
    Joins(Toks(s, p), [TSym('&')], Toks(s, q), BackToks(m), Toks(s, r.pos));
  }

  lemma {:induction false} JobSound(s: string, p: nat) returns (g: GPipe, n: nat)
    requires CString(s) && p <= |s| && Job(s, p).Ok?
    ensures PipeOk(g) && Covers(s, p, Job(s, p), Backed(PipeTree(g), n), PipeToks(g) + BackToks(n))
    decreases |s| - p, 3
  {
    var l := ParsePipe(s, p);
    g := PipeSound(s, p);
    n := BacksSound(s, l.cmd, PipeTree(g), l.pos, Job(s, p));
    Joins(Toks(s, p), PipeToks(g), Toks(s, l.pos), BackToks(n), Toks(s, Job(s, p).pos));
  }

  lemma {:induction false} LineSound(s: string, p: nat) returns (l: GLine)
    requires CString(s) && p <= |s| && ParseLine(s, p).Ok?
    ensures LineOk(l) && Covers(s, p, ParseLine(s, p), LineTree(l), LineToks(l))
    decreases |s| - p, 4
  {
    LineHasJob(s, p);
    LineIs(s, p);
    var b := Job(s, p);
    var g, n := JobSound(s, p);
    if Look(s, b.pos) == ';' {
      Sees(s, b.pos);
      var rest := LineSound(s, NextToken(s, b.pos).next);
      l := Then(g, n, rest);
      ThenSound(s, p, Backed(PipeTree(g), n), PipeToks(g) + BackToks(n), LineTree(rest), LineToks(rest));
    } else {
      SkipsSpace(s, b.pos);
      l := Last(g, n);
    }
  }

  lemma ThenSound(s: string, p: nat, t: Tree, a: seq<Tok>, u: Tree, b: seq<Tok>)
    requires CString(s) && p <= |s| && Covers(s, p, Job(s, p), t, a) && Look(s, Job(s, p).pos) == ';'
    requires var q := NextToken(s, Job(s, p).pos).next; Covers(s, q, ParseLine(s, q), u, b)
    ensures Covers(s, p, ParseLine(s, p), TList(t, u), a + [TSym(';')] + b)
  {
    LineIs(s, p);
    var j := Job(s, p);
    Both(s, p, j, t, a, ';', ParseLine(s, NextToken(s, j.pos).next), u, b, ParseLine(s, p));
  }

  lemma LineHasJob(s: string, p: nat)
    requires CString(s) && p <= |s| && ParseLine(s, p).Ok?
    ensures Job(s, p).Ok?
  {
  }

  // ---------------------------------------------------------------- the language

  /** l is a line of the grammar with the tokens of s. */
  ghost predicate IsLine(s: string, l: GLine) {
    CString(s) && LineOk(l) && Toks(s, 0) == LineToks(l)
  }

  lemma AtEnd(s: string, p: nat)
    requires CString(s) && p <= |s|
    ensures Toks(s, p) == [] <==> Skip(s, p) == |s|
  {
    Sees(s, p);
  }

  /** parsecmd() builds the tree of every line of the grammar, */
  lemma Accepts(s: string, l: GLine)
    requires IsLine(s, l)
    ensures ParseCmd(s).Ok? && Meaning(s, ParseCmd(s).cmd) == LineTree(l)
  {
    assert LineToks(l) + [] == LineToks(l);
    ShellComplete.LineParse(l, s, 0, []);
    AtEnd(s, ParseLine(s, 0).pos);
  }

  /** and takes no other string. */
  lemma AcceptsOnly(s: string) returns (l: GLine)
    requires CString(s) && ParseCmd(s).Ok?
    ensures IsLine(s, l) && Meaning(s, ParseCmd(s).cmd) == LineTree(l)
  {
    l := LineSound(s, 0);
    AtEnd(s, ParseLine(s, 0).pos);
    assert LineToks(l) + [] == LineToks(l);
  }

  /** The language of the shell: a string is parsed if and only if it is a line. */
  lemma Language(s: string)
    requires CString(s)
    ensures ParseCmd(s).Ok? <==> exists l :: IsLine(s, l)
  {
    if ParseCmd(s).Ok? {
      var l := AcceptsOnly(s);
    } else if l :| IsLine(s, l) {
      Accepts(s, l);
    }
  }
}
