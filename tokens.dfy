/** Direction tokens: the four valid names and the `name(count)` repetition form. */
module Tokens {
  import opened Geometry

  datatype Option<T> = None | Some(value: T)

  /** The name under which an instruction is written and recorded in a path. */
  function DirectionName(d: Direction): string
  {
    match d
    case Forward => "forward"
    case Left => "left"
    case Right => "right"
    case Backward => "backward"
  }

  /** A token is valid exactly when it is one of the four names. */
  predicate IsValidDirection(s: string)
  {
    s == "forward" || s == "left" || s == "right" || s == "backward"
  }

  /** The instruction a valid name stands for. */
  function DirectionOf(s: string): (d: Direction)
    requires IsValidDirection(s)
    ensures DirectionName(d) == s
  {
    if s == "forward" then Forward
    else if s == "left" then Left
    else if s == "right" then Right
    else Backward
  }

  /** Characters of the regular-expression class \w (ASCII letters, digits, underscore). */
  predicate IsWordChar(c: char)
  {
    ('a' <= c <= 'z') || ('A' <= c <= 'Z') || ('0' <= c <= '9') || c == '_'
  }

  /** Characters of the regular-expression class \d. */
  predicate IsDigitChar(c: char)
  {
    '0' <= c <= '9'
  }

  /** A match of \w+ . */
  predicate IsWord(s: string)
  {
    |s| > 0 && forall i :: 0 <= i < |s| ==> IsWordChar(s[i])
  }

  predicate AllDigits(s: string)
  {
    forall i :: 0 <= i < |s| ==> IsDigitChar(s[i])
  }

  /** A match of \d+ . */
  predicate IsDigits(s: string)
  {
    |s| > 0 && AllDigits(s)
  }

  /** Length of the longest prefix of word characters: what a greedy \w+ consumes. */
  function WordPrefixLength(t: string): (k: nat)
    ensures k <= |t|
  {
    if |t| == 0 || !IsWordChar(t[0]) then 0 else 1 + WordPrefixLength(t[1..])
  }

  /** The prefix is all word characters and stops at the first other one. */
  lemma {:induction false} WordPrefixIsGreedy(t: string)
    ensures forall i :: 0 <= i < WordPrefixLength(t) ==> IsWordChar(t[i])
    ensures WordPrefixLength(t) < |t| ==> !IsWordChar(t[WordPrefixLength(t)])
  {
    if |t| > 0 && IsWordChar(t[0]) {
      WordPrefixIsGreedy(t[1..]);
    }
  }

  /** The anchored pattern ^(\w+)\((\d+)\)$ : on a match, its two capture groups. */
  function MatchRepeated(t: string): (m: Option<(string, string)>)
    ensures m.Some? ==> t == m.value.0 + "(" + m.value.1 + ")"
  {
    var k := WordPrefixLength(t);
    if 0 < k && k + 3 <= |t| && t[k] == '(' && t[|t| - 1] == ')' && AllDigits(t[k + 1 .. |t| - 1])
    then
      assert t == t[..k] + "(" + t[k + 1 .. |t| - 1] + ")";
      Some((t[..k], t[k + 1 .. |t| - 1]))
    else None
  }

  /** On a match the captures are a \w+ word and a \d+ digit string. */
  lemma MatchRepeatedSound(t: string)
    ensures var m := MatchRepeated(t);
      m.Some? ==> IsWord(m.value.0) && IsDigits(m.value.1)
  {
    WordPrefixIsGreedy(t);
  }

  function DigitValue(c: char): nat
    requires IsDigitChar(c)
  {
    c as int - '0' as int
  }

  function DigitChar(d: nat): (c: char)
    requires d < 10
    ensures IsDigitChar(c) && DigitValue(c) == d
  {
    (d + '0' as int) as char
  }

  /** parseInt on a string of decimal digits: its value in base ten. */
  function ParseInt(ds: string): nat
    requires AllDigits(ds)
  {
    if |ds| == 0 then 0 else ParseInt(ds[..|ds| - 1]) * 10 + DigitValue(ds[|ds| - 1])
  }

  /** The decimal numeral of n, without leading zeros. */
  function DecimalString(n: nat): (s: string)
    ensures IsDigits(s)
  {
    if n < 10 then [DigitChar(n)] else DecimalString(n / 10) + [DigitChar(n % 10)]
  }

  /** How a token is read: the direction name to act on and how many times.
      A valid bare name runs once; a `name(count)` token gives its captured
      name and count; anything else is left as it is, to be rejected. */
  function ResolveToken(t: string): (r: (string, nat))
    ensures IsValidDirection(t) ==> r == (t, 1)
    ensures r.0 != t ==> !IsValidDirection(t) && MatchRepeated(t).Some?
  {
    if IsValidDirection(t) then (t, 1)
    else match MatchRepeated(t)
      case Some((name, digits)) => (name, ParseInt(digits))
      case None => (t, 1)
  }

  // ---------------------------------------------------------------------
  // Properties of token reading

  /** Names and instructions correspond one to one. */
  lemma DirectionNamesRoundTrip(d: Direction, s: string)
    ensures IsValidDirection(DirectionName(d)) && DirectionOf(DirectionName(d)) == d
    ensures IsValidDirection(s) <==> exists e :: DirectionName(e) == s
  {
    if IsValidDirection(s) {
      assert DirectionName(DirectionOf(s)) == s;
    }
  }

  /** No valid name has the form name(count), so the bare check and the
      pattern never both apply to one token. */
  lemma ValidNamesHaveNoCount(s: string)
    requires IsValidDirection(s)
    ensures IsWord(s) && MatchRepeated(s).None?
  {
  }

  /** The scanner finds every token of the form name(digits), and takes it
      apart into exactly that name and those digits. */
  lemma {:induction false} MatchRepeatedComplete(name: string, digits: string)
    requires IsWord(name) && IsDigits(digits)
    ensures MatchRepeated(name + "(" + digits + ")") == Some((name, digits))
  {
    var t := name + "(" + digits + ")";
    var k := WordPrefixLength(t);
    WordPrefixIsGreedy(t);
    assert t[|name|] == '(';
    assert k == |name|;
    assert t[..k] == name;
    assert t[k + 1 .. |t| - 1] == digits;
  }

  /** parseInt of the decimal numeral of n is n. */
  lemma {:induction false} ParseIntRoundTrip(n: nat)
    ensures ParseInt(DecimalString(n)) == n
  {
    var s := DecimalString(n);
    if n >= 10 {
      assert s[..|s| - 1] == DecimalString(n / 10);
      ParseIntRoundTrip(n / 10);
    }
  }

  /** Leading zeros do not change the count. */
  lemma {:induction false} ParseIntLeadingZero(ds: string)
    requires AllDigits(ds)
    ensures ParseInt("0" + ds) == ParseInt(ds)
  {
    if |ds| > 0 {
      var s := "0" + ds;
      assert s[..|s| - 1] == "0" + ds[..|ds| - 1];
      ParseIntLeadingZero(ds[..|ds| - 1]);
    }
  }

  /** When the name read differs from the token, the token was not a valid
      name and is exactly that name followed by a parenthesised digit string,
      whose parseInt is the count. */
  lemma ResolveTokenSound(t: string)
    ensures var r := ResolveToken(t);
      r.0 != t ==>
        && !IsValidDirection(t) && IsWord(r.0) && |r.0| + 3 <= |t|
        && IsDigits(t[|r.0| + 1 .. |t| - 1])
        && t == r.0 + "(" + t[|r.0| + 1 .. |t| - 1] + ")"
        && r.1 == ParseInt(t[|r.0| + 1 .. |t| - 1])
  {
    var r := ResolveToken(t);
    if r.0 != t {
      MatchRepeatedSound(t);
      var m := MatchRepeated(t);
      assert t == m.value.0 + "(" + m.value.1 + ")";
      assert t[|r.0| + 1 .. |t| - 1] == m.value.1;
    }
  }

  /** A bare valid name is read once. */
  lemma ResolveBare(d: Direction)
    ensures ResolveToken(DirectionName(d)) == (DirectionName(d), 1)
  {
  }

  /** Any token name(digits), valid name or not, is read as its captured name
      repeated parseInt(digits) times: the count suffix is stripped before the
      name is checked. */
  lemma ResolveRepeated(name: string, digits: string)
    requires IsWord(name) && IsDigits(digits)
    ensures ResolveToken(name + "(" + digits + ")") == (name, ParseInt(digits))
  {
    var t := name + "(" + digits + ")";
    assert t[|name|] == '(';
    assert !IsValidDirection(t);
    MatchRepeatedComplete(name, digits);
  }

  /** A token that is neither a valid name nor of the form name(digits) is
      read as itself, once: it is the raw token that an error records. */
  lemma ResolveUnmatched(t: string)
    requires !IsValidDirection(t)
    requires forall name, digits :: IsWord(name) && IsDigits(digits) ==> t != name + "(" + digits + ")"
    ensures ResolveToken(t) == (t, 1)
  {
    MatchRepeatedSound(t);
  }

  /** In particular a direction with a written count is read as that direction
      repeated that many times. */
  lemma ResolveCounted(d: Direction, n: nat)
    ensures ResolveToken(DirectionName(d) + "(" + DecimalString(n) + ")") == (DirectionName(d), n)
  {
    ResolveRepeated(DirectionName(d), DecimalString(n));
    ParseIntRoundTrip(n);
  }
}
