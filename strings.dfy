/**
 * Character classes, whitespace trimming, splitting on single spaces (the
 * `std::getline(stream, token, ' ')` loop) and decimal conversion of
 * naturals, as used by the netlist reader and the element serialisers
 * (src/pdn_container.cpp, src/resistor.cpp, src/current_source.cpp,
 * src/voltage_source.cpp).
 */
module Strings {

  /** `std::isspace` in the "C" locale. */
  predicate IsSpace(c: char)
  {
    c == ' ' || c == '\t' || c == '\n' || c == '\r' || c as int == 11 || c as int == 12
  }

  /** `std::isdigit` in the "C" locale. */
  predicate IsDigit(c: char)
  {
    '0' <= c <= '9'
  }

  predicate AllDigits(s: string)
  {
    forall i :: 0 <= i < |s| ==> IsDigit(s[i])
  }

  // ---------------------------------------------------------------------
  // Trimming (src/pdn_container.cpp:22-26)

  /** Drops leading whitespace. */
  function TrimLeft(s: string): string
  {
    if s != [] && IsSpace(s[0]) then TrimLeft(s[1..]) else s
  }

  /** Drops trailing whitespace. */
  function TrimRight(s: string): string
  {
    if s != [] && IsSpace(s[|s| - 1]) then TrimRight(s[..|s| - 1]) else s
  }

  /** The string `trim` leaves behind. */
  function Trimmed(s: string): string
  {
    TrimRight(TrimLeft(s))
  }

  /** How many whitespace characters `TrimLeft` drops. */
  function LeadingSpaces(s: string): (a: nat)
    ensures a <= |s|
  {
    if s != [] && IsSpace(s[0]) then 1 + LeadingSpaces(s[1..]) else 0
  }

  /** Where the whitespace that `TrimRight` drops begins. */
  function TrailingStart(s: string): (b: nat)
    ensures b <= |s|
  {
    if s != [] && IsSpace(s[|s| - 1]) then TrailingStart(s[..|s| - 1]) else |s|
  }

  lemma {:induction false} TrimLeftDrops(s: string)
    ensures TrimLeft(s) == s[LeadingSpaces(s)..]
    ensures forall i :: 0 <= i < LeadingSpaces(s) ==> IsSpace(s[i])
    ensures TrimLeft(s) == [] || !IsSpace(TrimLeft(s)[0])
    decreases |s|
  {
    if s != [] && IsSpace(s[0]) {
      var a := LeadingSpaces(s[1..]);
      TrimLeftDrops(s[1..]);
      assert s[1..][a..] == s[a + 1..];
      forall i | 0 <= i < a + 1 ensures IsSpace(s[i]) {
        if i > 0 { assert s[i] == s[1..][i - 1]; }
      }
    } else {
      assert s[0..] == s;
    }
  }

  lemma {:induction false} TrimRightDrops(s: string)
    ensures TrimRight(s) == s[..TrailingStart(s)]
    ensures forall i :: TrailingStart(s) <= i < |s| ==> IsSpace(s[i])
    ensures TrimRight(s) == [] || !IsSpace(TrimRight(s)[|TrimRight(s)| - 1])
    decreases |s|
  {
    if s != [] && IsSpace(s[|s| - 1]) {
      var p := s[..|s| - 1];
      var b := TrailingStart(p);
      TrimRightDrops(p);
      assert p[..b] == s[..b];
      forall i | b <= i < |s| ensures IsSpace(s[i]) {
        if i < |s| - 1 { assert s[i] == p[i]; }
      }
    } else {
      assert s[..|s|] == s;
    }
  }

  /**
   * What `trim` promises: the result is a contiguous piece of the input
   * obtained by removing only whitespace from both ends.
   */
  lemma TrimmedShape(s: string)
    ensures exists a, b ::
              (0 <= a <= b <= |s| && Trimmed(s) == s[a..b]
              && (forall i :: 0 <= i < a ==> IsSpace(s[i]))
              && (forall i :: b <= i < |s| ==> IsSpace(s[i])))
  {
    var a := LeadingSpaces(s);
    TrimLeftDrops(s);
    var l := s[a..];
    var b := TrailingStart(l);
    TrimRightDrops(l);
    assert l[..b] == s[a..a + b];
    forall i | a + b <= i < |s| ensures IsSpace(s[i]) {
      assert s[i] == l[i - a];
    }
    TrimmedPiece(s, a, a + b);
  }

  /** Witnesses for the shape of `trim`'s result. */
  lemma TrimmedPiece(s: string, a: nat, b: nat)
    requires a <= b <= |s| && Trimmed(s) == s[a..b]
    requires forall i :: 0 <= i < a ==> IsSpace(s[i])
    requires forall i :: b <= i < |s| ==> IsSpace(s[i])
    ensures exists a, b ::
              (0 <= a <= b <= |s| && Trimmed(s) == s[a..b]
              && (forall i :: 0 <= i < a ==> IsSpace(s[i]))
              && (forall i :: b <= i < |s| ==> IsSpace(s[i])))
  {
  }

  /** The other half of `trim`'s promise: neither end of the result is whitespace. */
  lemma TrimmedEnds(s: string)
    ensures Trimmed(s) == [] || (!IsSpace(Trimmed(s)[0]) && !IsSpace(Trimmed(s)[|Trimmed(s)| - 1]))
  {
    var l := TrimLeft(s);
    TrimLeftDrops(s);
    TrimRightDrops(l);
    var r := Trimmed(s);
    if r != [] {
      assert r[0] == l[0];
    }
  }

  /** `trim`: erases the whitespace at the front, then the whitespace at the back. */
  method Trim(s: string) returns (t: string)
    ensures t == Trimmed(s)
  {
    t := EraseFront(s);
    t := EraseBack(t);
  }

  /** The first `erase` of `trim`: up to the first non-whitespace character. */
  method EraseFront(s: string) returns (t: string)
    ensures t == TrimLeft(s)
  {
    var a := 0;
    while a < |s| && IsSpace(s[a])
      invariant 0 <= a <= |s|
      invariant TrimLeft(s[a..]) == TrimLeft(s)
    {
      assert s[a..][1..] == s[a + 1..];
      a := a + 1;
    }
    t := s[a..];
  }

  /** The second `erase` of `trim`: everything after the last non-whitespace character. */
  method EraseBack(s: string) returns (t: string)
    ensures t == TrimRight(s)
  {
    var b := |s|;
    assert s[..b] == s;
    while b > 0 && IsSpace(s[b - 1])
      invariant 0 <= b <= |s|
      invariant TrimRight(s[..b]) == TrimRight(s)
    {
      assert s[..b][..b - 1] == s[..b - 1];
      b := b - 1;
    }
    t := s[..b];
  }

  // ---------------------------------------------------------------------
  // Splitting on single spaces (src/pdn_container.cpp:165-170)

  /** Index of the first space, or the length when there is none. */
  function FirstSpace(s: string): (k: nat)
    ensures k <= |s|
    ensures forall i :: 0 <= i < k ==> s[i] != ' '
    ensures k < |s| ==> s[k] == ' '
  {
    if s == [] || s[0] == ' ' then 0 else 1 + FirstSpace(s[1..])
  }

  /**
   * The tokens `std::getline(stream, token, ' ')` produces: pieces between
   * single spaces; two adjacent spaces give an empty token, and a space at
   * the very end does not open a further token.
   */
  function Tokens(s: string): (r: seq<string>)
    ensures s == [] <==> r == []
    ensures forall t :: t in r ==> ' ' !in t
    decreases |s|
  {
    if s == [] then []
    else
      var k := FirstSpace(s);
      assert ' ' !in s[..k];
      if k == |s| then [s] else [s[..k]] + Tokens(s[k + 1..])
  }

  /** Rejoins tokens with one space between each two. */
  function JoinWithSpaces(ts: seq<string>): string
  {
    if ts == [] then [] else if |ts| == 1 then ts[0] else ts[0] + " " + JoinWithSpaces(ts[1..])
  }

  lemma {:induction false} TokensCons(a: string, rest: string)
    requires ' ' !in a
    ensures Tokens(a + " " + rest) == [a] + Tokens(rest)
  {
    var s := a + " " + rest;
    FirstSpaceOf(a, rest);
    assert s[..|a|] == a;
    assert s[|a| + 1..] == rest;
  }

  lemma {:induction false} FirstSpaceOf(a: string, rest: string)
    requires ' ' !in a
    ensures FirstSpace(a + " " + rest) == |a|
    decreases |a|
  {
    var s := a + " " + rest;
    if a != [] {
      assert a[0] in a;
      assert s[1..] == a[1..] + " " + rest;
      assert forall c :: c in a[1..] ==> c in a;
      FirstSpaceOf(a[1..], rest);
    }
  }

  lemma TokensSingle(d: string)
    requires d != [] && ' ' !in d
    ensures Tokens(d) == [d]
  {
  }

  /**
   * Splitting is the inverse of joining for space-free tokens whose last
   * one is not empty: this is why every line the serialisers emit splits
   * back into exactly its fields.
   */
  lemma {:induction false} TokensOfJoin(ts: seq<string>)
    requires ts != [] && ts[|ts| - 1] != []
    requires forall i :: 0 <= i < |ts| ==> ' ' !in ts[i]
    ensures Tokens(JoinWithSpaces(ts)) == ts
  {
    if |ts| == 1 {
      TokensSingle(ts[0]);
    } else {
      TokensOfJoin(ts[1..]);
      TokensCons(ts[0], JoinWithSpaces(ts[1..]));
    }
  }

  /** Joining a token in front of a non-empty list puts one space between them. */
  lemma JoinCons(a: string, ts: seq<string>)
    requires ts != []
    ensures JoinWithSpaces([a] + ts) == a + " " + JoinWithSpaces(ts)
  {
    assert ([a] + ts)[1..] == ts;
  }

  /** A line cut at a space is the text before it, the space, and the text after it. */
  lemma SplitAtSpace(s: string, k: nat)
    requires k < |s| && s[k] == ' '
    ensures s[..k] + " " + s[k + 1..] == s
  {
    assert s == s[..k] + [s[k]] + s[k + 1..];
  }

  /** Joining the tokens back rebuilds the line unless it ends in a space. */
  lemma {:induction false} JoinOfTokens(s: string)
    requires s == [] || s[|s| - 1] != ' '
    ensures JoinWithSpaces(Tokens(s)) == s
    decreases |s|
  {
    if s != [] {
      var k := FirstSpace(s);
      if k < |s| {
        var rest := s[k + 1..];
        assert rest != [] && rest[|rest| - 1] == s[|s| - 1];
        JoinOfTokens(rest);
        SplitAtSpace(s, k);
        assert ' ' !in s[..k];
        TokensCons(s[..k], rest);
        JoinCons(s[..k], Tokens(rest));
      }
    }
  }

  /** Two adjacent spaces yield an empty token. */
  lemma DoubleSpaceGivesEmptyToken(a: string, rest: string)
    requires ' ' !in a
    ensures Tokens(a + "  " + rest) == [a, ""] + Tokens(rest)
  {
    assert a + "  " + rest == a + " " + ("" + " " + rest);
    TokensCons(a, "" + " " + rest);
    TokensCons("", rest);
    assert "" + " " + rest == [] + " " + rest;
  }

  /** A line of four space-free fields, the last non-empty, splits into exactly those fields. */
  lemma FourTokens(a: string, b: string, c: string, d: string)
    requires ' ' !in a && ' ' !in b && ' ' !in c && ' ' !in d && d != []
    ensures Tokens(a + " " + (b + " " + (c + " " + d))) == [a, b, c, d]
  {
    var cd := c + " " + d;
    var bcd := b + " " + cd;
    TokensSingle(d);
    TokensCons(c, d);
    TokensCons(b, cd);
    TokensCons(a, bcd);
  }

  /** One `getline` call: the token runs up to the next space or to the end. */
  lemma TokensStep(line: string, pos: nat, end: nat, done: seq<string>)
    requires pos <= end <= |line| && pos < |line|
    requires forall j :: pos <= j < end ==> line[j] != ' '
    requires end < |line| ==> line[end] == ' '
    ensures var next := if end < |line| then end + 1 else |line|;
      done + Tokens(line[pos..]) == (done + [line[pos..end]]) + Tokens(line[next..])
  {
    var a := line[pos..end];
    assert ' ' !in a by {
      forall j | 0 <= j < |a| ensures a[j] != ' ' { assert a[j] == line[pos + j]; }
    }
    if end < |line| {
      assert line[pos..] == a + " " + line[end + 1..];
      TokensCons(a, line[end + 1..]);
    } else {
      assert line[pos..] == a;
      TokensSingle(a);
    }
  }

  /**
   * The tokenising loop of `resetWorkingGraph`: each round is one `getline`
   * call, which fails only once the whole line has been consumed.
   */
  method SplitTokens(line: string) returns (tokens: seq<string>)
    ensures tokens == Tokens(line)
  {
    tokens := [];
    var pos := 0;
    while pos < |line|
      invariant 0 <= pos <= |line|
      invariant tokens + Tokens(line[pos..]) == Tokens(line)
      decreases |line| - pos
    {
      var end := pos;
      while end < |line| && line[end] != ' '
        invariant pos <= end <= |line|
        invariant forall j :: pos <= j < end ==> line[j] != ' '
      {
        end := end + 1;
      }
      TokensStep(line, pos, end, tokens);
      tokens := tokens + [line[pos..end]];
      pos := if end < |line| then end + 1 else |line|;
    }
    assert tokens + [] == tokens;
  }

  // ---------------------------------------------------------------------
  // Decimal numbers

  function DigitValue(c: char): nat
    requires IsDigit(c)
  {
    c as int - '0' as int
  }

  function DigitChar(d: nat): (c: char)
    requires d < 10
    ensures IsDigit(c) && DigitValue(c) == d
  {
    ('0' as int + d) as char
  }

  /** The number a run of decimal digits denotes (`std::stoul` of it). */
  function DigitsValue(s: string): nat
    requires AllDigits(s)
  {
    if s == [] then 0 else DigitsValue(s[..|s| - 1]) * 10 + DigitValue(s[|s| - 1])
  }

  /** Decimal text of a natural number, as `operator<<` writes an unsigned integer. */
  function NatToString(n: nat): (r: string)
    ensures r != [] && AllDigits(r)
    ensures r[0] == '0' ==> r == "0"
    ensures ' ' !in r
  {
    if n < 10 then [DigitChar(n)] else NatToString(n / 10) + [DigitChar(n % 10)]
  }

  /** Reading back the decimal text of `n` gives `n`. */
  lemma {:induction false} NatToStringRoundTrip(n: nat)
    ensures DigitsValue(NatToString(n)) == n
  {
    if n >= 10 {
      var s := NatToString(n);
      assert s[..|s| - 1] == NatToString(n / 10);
      NatToStringRoundTrip(n / 10);
    }
  }
}
