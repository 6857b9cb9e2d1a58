/** The fragment of Python's `re` that the project's validators use, and Django's
    `RegexValidator` on top of it.

    A pattern is a sequence of items: `^`, `$` and one-character classes such as
    `[0-9A-Fa-f]` or a literal `#`; `X{n}` is written `Times(X, n)`. Without the
    MULTILINE flag `^` matches only at the start of the string, and `$` matches at
    the end of the string or just before a newline that is its last character. */
module Regex {

  import opened Wrappers

  datatype Item = Bol | Eol | Class(ranges: seq<(char, char)>)

  function Lit(c: char): Item {
    Class([(c, c)])
  }

  /** `X{n}`: the item repeated `n` times. */
  function Times(it: Item, n: nat): (p: seq<Item>)
    ensures |p| == n
    ensures forall k :: 0 <= k < n ==> p[k] == it
  {
    if n == 0 then [] else [it] + Times(it, n - 1)
  }

  predicate InClass(c: char, ranges: seq<(char, char)>) {
    exists k :: 0 <= k < |ranges| && ranges[k].0 <= c <= ranges[k].1
  }

  /** Whether `p` matches `s` from position `i` on (the match need not reach the end). */
  predicate MatchAt(p: seq<Item>, s: string, i: nat)
    requires i <= |s|
    decreases |p|
  {
    if p == [] then true
    else match p[0]
      case Bol => i == 0 && MatchAt(p[1..], s, i)
      case Eol => (i == |s| || (i + 1 == |s| && s[i] == '\n')) && MatchAt(p[1..], s, i)
      case Class(rs) => i < |s| && InClass(s[i], rs) && MatchAt(p[1..], s, i + 1)
  }

  /** `re.search`: the pattern matches from some position `i` or later. */
  predicate SearchFrom(p: seq<Item>, s: string, i: nat)
    requires i <= |s|
    decreases |s| - i
  {
    MatchAt(p, s, i) || (i < |s| && SearchFrom(p, s, i + 1))
  }

  predicate Search(p: seq<Item>, s: string) {
    SearchFrom(p, s, 0)
  }

  /** `RegexValidator(regex, message, inverse_match)(value)`: the message when the value is
      invalid, that is when the pattern is not found (or, with `inverse_match`, when it is). */
  function Validate(p: seq<Item>, message: string, inverseMatch: bool, value: string): (error: Option<string>)
    ensures error.Some? ==> error.value == message
    ensures error.None? <==> (Search(p, value) != inverseMatch)
  {
    var found := Search(p, value);
    if (if inverseMatch then found else !found) then Some(message) else None
  }

  /** `[ab]` holds exactly `a` and `b`. */
  lemma InTwoLiterals(c: char, a: char, b: char)
    ensures InClass(c, [(a, a), (b, b)]) <==> c == a || c == b
  {
    var rs := [(a, a), (b, b)];
    if c == a {
      assert rs[0].0 <= c <= rs[0].1;
    } else if c == b {
      assert rs[1].0 <= c <= rs[1].1;
    }
  }

  /** A pattern that starts with `^` can only match at position 0, so searching is matching there. */
  lemma {:induction false} AnchoredSearch(p: seq<Item>, s: string)
    requires |p| > 0 && p[0] == Bol
    ensures Search(p, s) == MatchAt(p, s, 0)
  {
    NoMatchAfterStart(p, s, 1);
  }

  lemma {:induction false} NoMatchAfterStart(p: seq<Item>, s: string, i: nat)
    requires |p| > 0 && p[0] == Bol
    requires 0 < i <= |s| + 1
    ensures i <= |s| ==> !SearchFrom(p, s, i)
    decreases |s| + 1 - i
  {
    if i <= |s| {
      assert !MatchAt(p, s, i);
      if i < |s| {
        NoMatchAfterStart(p, s, i + 1);
      }
    }
  }

  /** `X{n}` followed by `rest` matches at `i` exactly when the next `n` characters are in
      the class and `rest` matches after them. */
  lemma {:induction false} MatchTimes(rs: seq<(char, char)>, n: nat, rest: seq<Item>, s: string, i: nat)
    requires i <= |s|
    ensures MatchAt(Times(Class(rs), n) + rest, s, i) <==>
      i + n <= |s| && (forall k :: i <= k < i + n ==> InClass(s[k], rs)) && MatchAt(rest, s, i + n)
    decreases n
  {
    if n == 0 {
      assert Times(Class(rs), n) + rest == rest;
    } else {
      var p := Times(Class(rs), n) + rest;
      assert p[0] == Class(rs);
      assert p[1..] == Times(Class(rs), n - 1) + rest;
      if i < |s| {
        MatchTimes(rs, n - 1, rest, s, i + 1);
      }
    }
  }
}
