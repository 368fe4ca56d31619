/** The Go standard-library string operations the service relies on:
    strings.Join, strings.Trim with a cutset, and the decimal text that
    fmt's %v produces for a non-negative int. */
module GoStrings {

  /** strings.Join: the parts, in order, with sep between consecutive ones. */
  function Join(parts: seq<string>, sep: string): string
    decreases |parts|
  {
    if |parts| == 0 then ""
    else if |parts| == 1 then parts[0]
    else parts[0] + sep + Join(parts[1..], sep)
  }

  /** The concatenation of sep + p for every part p, in order. */
  function PrefixEach(sep: string, parts: seq<string>): string
    decreases |parts|
  {
    if parts == [] then "" else sep + parts[0] + PrefixEach(sep, parts[1..])
  }

  /** Joining a list that starts with a seed puts the separator after the
      seed too: Join([seed, a, b], sep) == seed + sep + a + sep + b. */
  lemma {:induction false} JoinAfterSeed(seed: string, parts: seq<string>, sep: string)
    ensures Join([seed] + parts, sep) == seed + PrefixEach(sep, parts)
    decreases |parts|
  {
    if parts != [] {
      JoinAfterSeed(parts[0], parts[1..], sep);
      assert [parts[0]] + parts[1..] == parts;
      assert ([seed] + parts)[1..] == parts;
    }
  }

  predicate IsDigit(c: char) {
    '0' <= c <= '9'
  }

  function DigitChar(d: nat): (c: char)
    requires d < 10
    ensures IsDigit(c)
  {
    ('0' as int + d) as char
  }

  function DigitValue(c: char): nat
    requires IsDigit(c)
  {
    c as int - '0' as int
  }

  /** The decimal text of n, as fmt's %v prints a non-negative int. */
  function NatToString(n: nat): (s: string)
    ensures |s| >= 1
    ensures forall i :: 0 <= i < |s| ==> IsDigit(s[i])
    ensures s[0] == '0' ==> n == 0
    decreases n
  {
    if n < 10 then [DigitChar(n)] else NatToString(n / 10) + [DigitChar(n % 10)]
  }

  /** The value of a string of decimal digits (the inverse of NatToString). */
  function DigitsValue(s: string): nat
    requires forall i :: 0 <= i < |s| ==> IsDigit(s[i])
    decreases |s|
  {
    if s == [] then 0 else 10 * DigitsValue(s[..|s| - 1]) + DigitValue(s[|s| - 1])
  }

  /** Reading back the decimal text of n gives n. */
  lemma {:induction false} NatToStringRoundTrip(n: nat)
    ensures DigitsValue(NatToString(n)) == n
    decreases n
  {
    var s := NatToString(n);
    if n < 10 {
      assert s[..|s| - 1] == [];
    } else {
      NatToStringRoundTrip(n / 10);
      assert s[..|s| - 1] == NatToString(n / 10);
    }
  }

  /** Different numbers have different decimal texts. */
  lemma NatToStringInjective(a: nat, b: nat)
    ensures NatToString(a) == NatToString(b) ==> a == b
  {
    NatToStringRoundTrip(a);
    NatToStringRoundTrip(b);
  }

  /** strings.TrimLeft with a cutset: drops every leading character in cut. */
  function TrimLeft(s: string, cut: set<char>): string
    decreases |s|
  {
    if s != [] && s[0] in cut then TrimLeft(s[1..], cut) else s
  }

  /** strings.TrimRight with a cutset: drops every trailing character in cut. */
  function TrimRight(s: string, cut: set<char>): string
    decreases |s|
  {
    if s != [] && s[|s| - 1] in cut then TrimRight(s[..|s| - 1], cut) else s
  }

  /** TrimLeft keeps a suffix, drops only characters of cut, and stops at the
      first character not in cut. */
  lemma {:induction false} TrimLeftSpec(s: string, cut: set<char>)
    ensures var r := TrimLeft(s, cut);
      |r| <= |s| && r == s[|s| - |r|..]
      && (forall i :: 0 <= i < |s| - |r| ==> s[i] in cut)
      && (r != [] ==> r[0] !in cut)
    decreases |s|
  {
    if s != [] && s[0] in cut {
      TrimLeftSpec(s[1..], cut);
      var r := TrimLeft(s, cut);
      forall i | 0 <= i < |s| - |r|
        ensures s[i] in cut
      {
        if i > 0 {
          assert s[i] == s[1..][i - 1];
        }
      }
    }
  }

  /** TrimRight keeps a prefix, drops only characters of cut, and stops at
      the last character not in cut. */
  lemma {:induction false} TrimRightSpec(s: string, cut: set<char>)
    ensures var r := TrimRight(s, cut);
      |r| <= |s| && r == s[..|r|]
      && (forall i :: |r| <= i < |s| ==> s[i] in cut)
      && (r != [] ==> r[|r| - 1] !in cut)
    decreases |s|
  {
    if s != [] && s[|s| - 1] in cut {
      var t := s[..|s| - 1];
      TrimRightSpec(t, cut);
      var r := TrimRight(s, cut);
      assert r == TrimRight(t, cut);
      assert t[..|r|] == s[..|r|];
      forall i | |r| <= i < |s|
        ensures s[i] in cut
      {
        if i < |s| - 1 {
          assert s[i] == t[i];
        }
      }
    }
  }

  /** r is s with the first i characters and everything after i + |r|
      dropped, and every dropped character is in cut. */
  predicate TrimmedAt(s: string, cut: set<char>, i: int, r: string) {
    0 <= i <= |s| - |r| && r == s[i..i + |r|]
    && (forall k :: 0 <= k < i ==> s[k] in cut)
    && (forall k :: i + |r| <= k < |s| ==> s[k] in cut)
  }

  /** strings.Trim with a cutset. */
  function Trim(s: string, cut: set<char>): string {
    TrimRight(TrimLeft(s, cut), cut)
  }

  /** Trim keeps the longest middle part of s that neither starts nor ends
      with a character of cut; everything dropped is in cut. */
  lemma TrimSpec(s: string, cut: set<char>)
    ensures var r := Trim(s, cut); r != [] ==> r[0] !in cut && r[|r| - 1] !in cut
    ensures TrimmedAt(s, cut, |s| - |TrimLeft(s, cut)|, Trim(s, cut))
  {
    TrimLeftSpec(s, cut);
    var left := TrimLeft(s, cut);
    TrimRightSpec(left, cut);
    var r := TrimRight(left, cut);
    var i := |s| - |left|;
    assert r == left[..|r|] && left == s[i..];
    assert r == s[i..i + |r|];
    forall k | i + |r| <= k < |s|
      ensures s[k] in cut
    {
      assert s[k] == left[k - i];
    }
  }
}
