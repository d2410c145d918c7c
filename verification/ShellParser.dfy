/**
  sh.c: the recursive descent parser.  A command line is a C string s; a cursor is a
  position in it, and position |s| is the NUL.  A panic is the result Fail.
*/
module ShellParser {

  const NUL: char := '\0'
  const MAXARGS: nat := 10

  predicate Space(c: char) {
    c == ' ' || c == '\t' || c == '\r' || c == '\n' || c == '\U{000B}'
  }

  predicate Symbol(c: char) {
    c == '<' || c == '|' || c == '>' || c == '&' || c == ';' || c == '(' || c == ')'
  }

  /** A character of a word. */
  predicate Plain(c: char) {
    c != NUL && !Space(c) && !Symbol(c)
  }

  predicate CString(s: string) {
    NUL !in s
  }

  function At(s: string, p: nat): char
    requires p <= |s|
  {
    if p < |s| then s[p] else NUL
  }

  // ---------------------------------------------------------------- tokens

  /** Past the white space. */
  function Skip(s: string, p: nat): (r: nat)
    requires p <= |s|
    ensures p <= r <= |s| && !Space(At(s, r))
    decreases |s| - p
  {
    if p < |s| && Space(s[p]) then Skip(s, p + 1) else p
  }

  /** Past the word that begins before p. */
  function WordEnd(s: string, p: nat): (r: nat)
    requires p <= |s|
    ensures p <= r <= |s| && (r < |s| ==> Space(s[r]) || Symbol(s[r])) && forall i :: p <= i < r ==>
      !Space(s[i]) && !Symbol(s[i])
    decreases |s| - p
  {
    if p < |s| && !Space(s[p]) && !Symbol(s[p]) then WordEnd(s, p + 1) else p
  }

  /** What gettoken() returns: the kind ('a' for a word, '+' for >>, otherwise the
      character), where the token begins and ends, and the next cursor. */
  datatype Token = Token(kind: char, q: nat, eq: nat, next: nat)

  function TokenEnd(s: string, q: nat): (r: nat)
    requires q <= |s|
    ensures q <= r <= |s| && (q < |s| && At(s, q) != NUL && !Space(s[q]) ==> q < r)
  {
    var c := At(s, q);
    if c == NUL then q
    else if c == '>' then (if At(s, q + 1) == '>' then q + 2 else q + 1)
    else if Symbol(c) then q + 1
    else WordEnd(s, q)
  }

  function Kind(s: string, q: nat): char
    requires q <= |s|
  {
    var c := At(s, q);
    if c == '>' && At(s, q + 1) == '>' then '+' else if c == NUL || Symbol(c) then c else 'a'
  }

  function NextToken(s: string, p: nat): (t: Token)
    requires p <= |s|
    ensures p <= t.q <= t.eq <= t.next <= |s|
    ensures CString(s) && t.kind != NUL ==> p < t.next
    ensures CString(s) && t.kind == 'a' ==> IsWord(s, t.q, t.eq)
  {
    var q := Skip(s, p);
    var eq := TokenEnd(s, q);
    Token(Kind(s, q), q, eq, Skip(s, eq))
  }

  /** A maximal run of word characters. */
  predicate IsWord(s: string, q: nat, eq: nat) {
    q < eq <= |s| && (forall i :: q <= i < eq ==> Plain(s[i])) && (eq < |s| ==> !Plain(s[eq]))
  }

  /** The character that peek() looks at. */
  function Look(s: string, p: nat): char
    requires p <= |s|
  {
    At(s, Skip(s, p))
  }

  // ---------------------------------------------------------------- commands

  /** argv[i] and eargv[i], or file and efile. */
  datatype Span = Span(q: nat, eq: nat)

  /** Modes: O_RDONLY on descriptor 0, or O_WRONLY|O_CREATE on descriptor 1. */
  datatype Mode = Input | Output

  datatype Cmd =
    | Exec(args: seq<Span>)
    | Redir(cmd: Cmd, file: Span, mode: Mode)
    | Pipe(left: Cmd, right: Cmd)
    | List(left: Cmd, right: Cmd)
    | Back(cmd: Cmd)

  datatype Result = Ok(cmd: Cmd, pos: nat) | Fail

  /** cmd->argv[argc] = q for the exec command inside ret. */
  function AddArg(cmd: Cmd, a: Span): Cmd {
    match cmd
    case Exec(args) => Exec(args + [a])
    case Redir(c, file, mode) => Redir(AddArg(c, a), file, mode)
    case _ => cmd
  }

  ghost predicate Within(s: string, p: nat, r: Result) {
    r.Ok? ==> p <= r.pos <= |s|
  }

  function Redirs(s: string, cmd: Cmd, p: nat): (r: Result)
    requires CString(s) && p <= |s|
    ensures Within(s, p, r)
    decreases |s| - p
  {
    var c := Look(s, p);
    if c == '<' || c == '>' then
      var t := NextToken(s, p);
      var w := NextToken(s, t.next);
      if w.kind != 'a' then Fail
      else Redirs(s, Redir(cmd, Span(w.q, w.eq), if t.kind == '<' then Input else Output), w.next)
    else Ok(cmd, Skip(s, p))
  }

  predicate EndsExec(c: char) {
    c == '|' || c == ')' || c == '&' || c == ';'
  }

  function Args(s: string, cmd: Cmd, argc: nat, p: nat): (r: Result)
    requires CString(s) && p <= |s|
    ensures Within(s, p, r)
    decreases |s| - p
  {
    if EndsExec(Look(s, p)) then Ok(cmd, Skip(s, p))
    else
      var t := NextToken(s, p);
      if t.kind == NUL then Ok(cmd, t.next)
      else if t.kind != 'a' || argc + 1 >= MAXARGS then Fail
      else
        var r := Redirs(s, AddArg(cmd, Span(t.q, t.eq)), t.next);
        if r.Fail? then Fail else Args(s, r.cmd, argc + 1, r.pos)
  }

  function ParseBlock(s: string, p: nat): (r: Result)
    requires CString(s) && p <= |s|
    ensures Within(s, p, r)
    decreases |s| - p, 0
  {
    if Look(s, p) != '(' then Fail
    else
      var r := ParseLine(s, NextToken(s, p).next);
      if r.Fail? || Look(s, r.pos) != ')' then Fail
      else Redirs(s, r.cmd, NextToken(s, r.pos).next)
  }

  function ParseExec(s: string, p: nat): (r: Result)
    requires CString(s) && p <= |s|
    ensures Within(s, p, r)
    decreases |s| - p, 1
  {
    if Look(s, p) == '(' then ParseBlock(s, p)
    else
      var r := Redirs(s, Exec([]), p);
      if r.Fail? then Fail else Args(s, r.cmd, 0, r.pos)
  }

  function ParsePipe(s: string, p: nat): (r: Result)
    requires CString(s) && p <= |s|
    ensures Within(s, p, r)
    decreases |s| - p, 2
  {
    var l := ParseExec(s, p);
    if l.Fail? then Fail
    else if Look(s, l.pos) == '|' then
      var r := ParsePipe(s, NextToken(s, l.pos).next);
      if r.Fail? then Fail else Ok(Pipe(l.cmd, r.cmd), r.pos)
    else Ok(l.cmd, Skip(s, l.pos))
  }

  /** while (peek "&") */
  function Backs(s: string, cmd: Cmd, p: nat): (r: Result)
    requires CString(s) && p <= |s|
    ensures r.Ok? && Within(s, p, r)
    decreases |s| - p
  {
    if Look(s, p) == '&' then Backs(s, Back(cmd), NextToken(s, p).next) else Ok(cmd, Skip(s, p))
  }

  function ParseLine(s: string, p: nat): (r: Result)
    requires CString(s) && p <= |s|
    ensures Within(s, p, r)
    decreases |s| - p, 3
  {
    var l := ParsePipe(s, p);
    if l.Fail? then Fail
    else
      var b := Backs(s, l.cmd, l.pos);
      if Look(s, b.pos) == ';' then
        var r := ParseLine(s, NextToken(s, b.pos).next);
        if r.Fail? then Fail else Ok(List(b.cmd, r.cmd), r.pos)
      else Ok(b.cmd, Skip(s, b.pos))
  }

  /** parsecmd(): the whole string, or a syntax error. */
  function ParseCmd(s: string): (r: Result)
    requires CString(s)
  {
    var r := ParseLine(s, 0);
    if r.Fail? || Skip(s, r.pos) != |s| then Fail else r
  }
}
