/** grep.c: the regular expression matcher, against a meaning of patterns that
    does not mention the way it searches. */
module Grep {

  const NUL: char := '\0'

  /** A C string is its characters before the terminating NUL. */
  predicate CString(s: string) {
    NUL !in s
  }

  /** *(s + i), up to and including the NUL. */
  function At(s: string, i: nat): char
    requires i <= |s|
  {
    if i < |s| then s[i] else NUL
  }

  // ---------------------------------------------------------------- meaning

  /** One part of a pattern. */
  datatype Item = One(c: char) | Star(c: char) | End

  predicate Fits(c: char, x: char) {
    c == '.' || c == x
  }

  /** The strings that one part stands for. */
  predicate Piece(item: Item, s: string) {
    match item
    case One(c) => |s| == 1 && Fits(c, s[0])
    case Star(c) => forall i :: 0 <= i < |s| ==> Fits(c, s[i])
    case End => s == ""
  }

  /** The parts of a pattern (without a leading ^). */
  function Items(re: string): (r: seq<Item>)
    ensures forall i :: 0 <= i < |r| - 1 ==> r[i] != End
  {
    if re == "" then []
    else if |re| > 1 && re[1] == '*' then [Star(re[0])] + Items(re[2..])
    else if re == "$" then [End]
    else [One(re[0])] + Items(re[1..])
  }

  function Concat(ps: seq<string>): string {
    if ps == [] then "" else ps[0] + Concat(ps[1..])
  }

  /** The text is a piece for each part, in order, and a rest, which is empty if
      the pattern ends in $. */
  ghost predicate Split(items: seq<Item>, text: string, ps: seq<string>, rest: string) {
    && |ps| == |items| && (forall i :: 0 <= i < |ps| ==> Piece(items[i], ps[i]))
    && text == Concat(ps) + rest
    && (items != [] && items[|items| - 1] == End ==> rest == "")
  }

  /** The pattern matches at the start of the text. */
  ghost predicate Here(items: seq<Item>, text: string) {
    exists ps, rest :: Split(items, text, ps, rest)
  }

  ghost predicate HereAt(items: seq<Item>, text: string, k: nat) {
    k <= |text| && Here(items, text[k..])
  }

  /** The pattern matches somewhere in the text, or at its start after a ^. */
  ghost predicate Meaning(re: string, text: string) {
    if re != "" && re[0] == '^' then Here(Items(re[1..]), text)
    else exists k :: 0 <= k && HereAt(Items(re), text, k)
  }

  // ---------------------------------------------------------------- the parts one by one

  lemma NoParts(text: string)
    ensures Here([], text)
  {
    assert Split([], text, [], text);
  }

  lemma EndPart(text: string)
    ensures Here([End], text) <==> text == ""
  {
    if text == "" {
      assert Concat([""]) == "";
      assert Split([End], text, [""], "");
    }
    if ps, rest :| Split([End], text, ps, rest) {
      assert ps == [""];
      assert Concat(ps) == "";
    }
  }

  /** A first part takes a prefix of the text and leaves the others the remainder. */
  ghost predicate Takes(item: Item, items: seq<Item>, text: string, k: nat) {
    k <= |text| && Piece(item, text[..k]) && Here(items, text[k..])
  }

  lemma FirstPart(item: Item, items: seq<Item>, text: string)
    requires item != End
    ensures Here([item] + items, text) <==> exists k :: 0 <= k && Takes(item, items, text, k)
  {
    if ps, rest :| Split([item] + items, text, ps, rest) {
      FirstTakes(item, items, text, ps, rest);
    }
    if k :| 0 <= k && Takes(item, items, text, k) {
      var ps, rest :| Split(items, text[k..], ps, rest);
      FirstJoins(item, items, text, k, ps, rest);
    }
  }

  lemma FirstTakes(item: Item, items: seq<Item>, text: string, ps: seq<string>, rest: string)
    requires item != End && Split([item] + items, text, ps, rest)
    ensures Takes(item, items, text, |ps[0]|)
  {
    var k := |ps[0]|;
    assert Piece(([item] + items)[0], ps[0]);
    assert text == ps[0] + (Concat(ps[1..]) + rest);
    assert text[..k] == ps[0] && text[k..] == Concat(ps[1..]) + rest;
    forall i | 0 <= i < |ps[1..]| ensures Piece(items[i], ps[1..][i]) {
      assert Piece(([item] + items)[i + 1], ps[i + 1]);
    }
    assert Split(items, text[k..], ps[1..], rest);
  }

  lemma FirstJoins(item: Item, items: seq<Item>, text: string, k: nat, ps: seq<string>, rest: string)
    requires item != End && k <= |text| && Piece(item, text[..k]) && Split(items, text[k..], ps, rest)
    ensures Here([item] + items, text)
  {
    var all := [text[..k]] + ps;
    assert all[1..] == ps;
    assert text == text[..k] + text[k..];
    assert text == Concat(all) + rest;
    assert Split([item] + items, text, all, rest);
  }

  /** A single character. */
  lemma OnePart(c: char, items: seq<Item>, text: string)
    ensures Here([One(c)] + items, text) <==> text != "" && Fits(c, text[0]) && Here(items, text[1..])
  {
    FirstPart(One(c), items, text);
    if text != "" && Fits(c, text[0]) && Here(items, text[1..]) {
      assert text[..1][0] == text[0];
      assert Takes(One(c), items, text, 1);
    }
    if k :| 0 <= k && Takes(One(c), items, text, k) {
      assert k == 1 && text[..1][0] == text[0];
    }
  }

  // ---------------------------------------------------------------- the matcher

  /** matchhere(): re matches at the beginning of text. */
  method MatchHere(re: string, text: string) returns (r: bool)
    requires CString(re) && CString(text)
    ensures r <==> Here(Items(re), text)
    decreases |re|, 0
  {
    if At(re, 0) == NUL {
      NoParts(text);
      return true;
    }
    if At(re, 1) == '*' {
      assert Items(re) == [Star(re[0])] + Items(re[2..]);
      r := MatchStar(re[0], re[2..], text);
      FirstPart(Star(re[0]), Items(re[2..]), text);
      return;
    }
    if At(re, 0) == '$' && At(re, 1) == NUL {
      EndPart(text);
      return At(text, 0) == NUL;
    }
    OnePart(re[0], Items(re[1..]), text);
    if At(text, 0) != NUL && (re[0] == '.' || re[0] == At(text, 0)) {
      r := MatchHere(re[1..], text[1..]);
      return;
    }
    return false;
  }

  /** matchstar(): c* and then re matches at the beginning of text. */
  method MatchStar(c: char, re: string, text: string) returns (r: bool)
    requires CString(re) && CString(text)
    ensures r <==> exists k :: 0 <= k && Takes(Star(c), Items(re), text, k)
    decreases |re|, 1
  {
    var k := 0;
    while true
      invariant 0 <= k <= |text| && Piece(Star(c), text[..k])
      invariant forall j :: 0 <= j < k ==> !Takes(Star(c), Items(re), text, j)
      decreases |text| - k
    {
      r := MatchHere(re, text[k..]);
      if r {
        assert Takes(Star(c), Items(re), text, k);
        return;
      }
      if !(At(text, k) != NUL && (At(text, k) == c || c == '.')) {
        StarStops(c, Items(re), text, k);
        return false;
      }
      assert text[..k + 1] == text[..k] + [text[k]];
      k := k + 1;
    }
  }

  lemma StarStops(c: char, items: seq<Item>, text: string, k: nat)
    requires k <= |text| && (k == |text| || !Fits(c, text[k])) && !Takes(Star(c), items, text, k)
    requires forall j :: 0 <= j < k ==> !Takes(Star(c), items, text, j)
    ensures forall j :: 0 <= j ==> !Takes(Star(c), items, text, j)
  {
    forall j | k < j <= |text| ensures !Takes(Star(c), items, text, j) {
      assert text[..j][k] == text[k];
    }
  }

  /** match(): 1 exactly when the text has a match of the pattern. */
  method Match(re: string, text: string) returns (r: bool)
    requires CString(re) && CString(text)
    ensures r <==> Meaning(re, text)
  {
    if At(re, 0) == '^' {
      r := MatchHere(re[1..], text);
      return;
    }
    var k := 0;
    while true
      invariant 0 <= k <= |text|
      invariant forall j :: 0 <= j < k ==> !HereAt(Items(re), text, j)
      decreases |text| - k
    {
      r := MatchHere(re, text[k..]);
      if r {
        assert HereAt(Items(re), text, k);
        return;
      }
      if At(text, k) == NUL {
        return false;
      }
      k := k + 1;
    }
  }
}
