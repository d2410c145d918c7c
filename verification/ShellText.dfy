/** Lines of the grammar, written without parentheses of their own and parsed again. */
module ShellText {
  import opened ShellParser
  import opened ShellRoundTrip
  import opened ShellGrammar
  import ShellSound

  predicate TokOk(x: Tok) {
    match x
    case TWord(w) => PlainWord(w)
    case TSym(c) => c == '+' || Symbol(c)
  }

  predicate AllOk(toks: seq<Tok>) {
    forall i :: 0 <= i < |toks| ==> TokOk(toks[i])
  }

  function Spell(x: Tok): string {
    match x
    case TWord(w) => w
    case TSym(c) => if c == '+' then ">>" else [c]
  }

  /** Every token with a blank behind it. */
  function Text(toks: seq<Tok>): string {
    if toks == [] then "" else Spell(toks[0]) + " " + Text(toks[1..])
  }

  // ---------------------------------------------------------------- the tokens of a line can be written

  lemma {:induction false} RedirToksOk(rs: seq<Redirection>)
    requires RedirsOk(rs)
    ensures AllOk(RedirToks(rs))
  {
    if rs != [] {
      RedirToksOk(rs[1..]);
    }
  }

  lemma {:induction false} ArgToksOk(args: seq<Arg>)
    requires ArgsOk(args)
    ensures AllOk(ArgToks(args))
  {
    if args != [] {
      RedirToksOk(args[0].after);
      ArgToksOk(args[1..]);
    }
  }

  lemma {:induction false} BackToksOk(n: nat)
    ensures AllOk(BackToks(n))
  {
    if n != 0 {
      BackToksOk(n - 1);
    }
  }

  lemma {:induction false} ExecToksOk(e: GExec)
    requires ExecOk(e)
    ensures AllOk(ExecToks(e))
  {
    match e
    case Simple(before, args) =>
      RedirToksOk(before);
      ArgToksOk(args);
    case Group(line, after) =>
      LineToksOk(line);
      RedirToksOk(after);
  }

  lemma {:induction false} PipeToksOk(g: GPipe)
    requires PipeOk(g)
    ensures AllOk(PipeToks(g))
  {
    match g
    case One(e) => ExecToksOk(e);
    case Piped(e, rest) =>
      ExecToksOk(e);
      PipeToksOk(rest);
  }

  lemma {:induction false} LineToksOk(l: GLine)
    requires LineOk(l)
    ensures AllOk(LineToks(l))
  {
    PipeToksOk(l.pipe);
    BackToksOk(l.backs);
    if l.Then? {
      LineToksOk(l.rest);
    }
  }

  // ---------------------------------------------------------------- and read

  lemma {:induction false} TextIsString(toks: seq<Tok>)
    requires AllOk(toks)
    ensures CString(Text(toks))
  {
    if toks != [] {
      assert TokOk(toks[0]);
      TextIsString(toks[1..]);
    }
  }

  /** A token with a blank behind it. */
  lemma Spelled(s: string, p: nat, x: Tok)
    requires CString(s) && TokOk(x) && Has(s, p, Spell(x) + " ")
    ensures var t := NextToken(s, p); t.kind != NUL && TokOf(s, t) == x && t.next == Skip(s, p + |Spell(x)|)
  {
    var e := p + |Spell(x)|;
    HasConcat(s, p, Spell(x), " ");
    assert s[e] == s[e..e + 1][0];
    assert s[p] == s[p..e][0];
    NoSkip(s, p);
    if x.TWord? {
      forall i | p <= i < e
        ensures Plain(s[i])
      {
        assert s[i] == s[p..e][i - p];
      }
      WordToken(s, p, e);
    } else if x.c == '+' {
      assert s[p + 1] == s[p..e][1];
    }
  }

  lemma TextFirst(toks: seq<Tok>, s: string, p: nat, e: nat)
    requires toks != [] && p <= |s| && s[p..] == Text(toks) && e == p + |Spell(toks[0])|
    ensures Has(s, p, Spell(toks[0]) + " ") && e < |s| && s[e] == ' ' && s[e + 1..] == Text(toks[1..])
  {
    var x := Spell(toks[0]) + " ";
    assert s[p..p + |x|] == Text(toks)[..|x|] == x;
    assert s[e + 1..] == s[p..][e + 1 - p..] == Text(toks[1..]);
    assert s[e] == s[p..][e - p] == ' ';
  }

  lemma ReadFirst(s: string, p: nat, x: Tok, e: nat)
    requires CString(s) && TokOk(x) && Has(s, p, Spell(x) + " ") && e == p + |Spell(x)| && e < |s| && s[e] == ' '
    ensures Toks(s, p) == [x] + Toks(s, e + 1)
  {
    Spelled(s, p, x);
    ShellSound.First(s, p);
    SkipsSpace(s, e);
    SkipsSpace(s, e + 1);
  }

  /** gettoken() finds again the tokens that were written. */
  lemma {:induction false} TextToks(toks: seq<Tok>, s: string, p: nat)
    requires AllOk(toks) && CString(s) && p <= |s| && s[p..] == Text(toks)
    ensures Toks(s, p) == toks
    decreases |toks|
  {
    if toks != [] {
      var e := p + |Spell(toks[0])|;
      TextFirst(toks, s, p, e);
      TextToks(toks[1..], s, e + 1);
      ReadFirst(s, p, toks[0], e);
      assert toks == [toks[0]] + toks[1..];
    } else {
      assert p == |s|;
    }
  }

  /** Pipelines, lists and jobs nest as the grammar says; no parenthesis is needed. */
  lemma LineRoundTrip(l: GLine)
    requires LineOk(l)
    ensures var s := Text(LineToks(l)); CString(s) && ParseCmd(s).Ok? && Meaning(s, ParseCmd(s).cmd) == LineTree(l)
  {
    var s := Text(LineToks(l));
    LineToksOk(l);
    TextIsString(LineToks(l));
    TextToks(LineToks(l), s, 0);
    ShellSound.Accepts(s, l);
  }
}
