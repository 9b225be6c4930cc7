// The PHP string built-ins the modelled code relies on: str_replace, trim,
// ltrim, explode, substr and the decimal rendering of integers.

module Strings {
  import opened Wrappers

  predicate StartsWith(s: string, prefix: string)
  {
    |prefix| <= |s| && s[..|prefix|] == prefix
  }

  /** `strpos($s, $needle) !== false`, written as a scan from the left. */
  predicate Contains(s: string, needle: string)
    decreases |s|
  {
    StartsWith(s, needle) || (s != [] && Contains(s[1..], needle))
  }

  /** `str_replace($from, $to, $s)`: one left-to-right pass replacing non-overlapping occurrences. */
  function ReplaceAll(s: string, from: string, to: string): string
    requires from != []
    decreases |s|
  {
    if StartsWith(s, from) then to + ReplaceAll(s[|from|..], from, to)
    else if s == [] then []
    else [s[0]] + ReplaceAll(s[1..], from, to)
  }

  /** `ltrim($s, $chars)`: drops the longest prefix made of characters of `chars`. */
  function LTrim(s: string, chars: set<char>): (r: string)
    ensures |r| <= |s| && r == s[|s| - |r|..]
    ensures r != [] ==> r[0] !in chars
    ensures forall i :: 0 <= i < |s| - |r| ==> s[i] in chars
    decreases |s|
  {
    if s != [] && s[0] in chars then LTrim(s[1..], chars) else s
  }

  /** `rtrim($s, $chars)`: drops the longest suffix made of characters of `chars`. */
  function RTrim(s: string, chars: set<char>): (r: string)
    ensures |r| <= |s| && r == s[..|r|]
    ensures r != [] ==> r[|r| - 1] !in chars
    ensures forall i :: |r| <= i < |s| ==> s[i] in chars
    decreases |s|
  {
    if s != [] && s[|s| - 1] in chars then RTrim(s[..|s| - 1], chars) else s
  }

  /** `trim($s, $chars)`. */
  function Trim(s: string, chars: set<char>): string
  {
    RTrim(LTrim(s, chars), chars)
  }

  /** The default character list of `trim($s)`. */
  const Whitespace: set<char> := {' ', '\t', '\n', '\r', '\0', '\U{000B}'}

  /** `explode($d, $s)` for a one-character delimiter: never empty, parts free of the delimiter. */
  function Explode(d: char, s: string): (r: seq<string>)
    ensures |r| >= 1
    ensures forall i :: 0 <= i < |r| ==> d !in r[i]
    decreases |s|
  {
    if s == [] then [[]]
    else if s[0] == d then [[]] + Explode(d, s[1..])
    else
      var t := Explode(d, s[1..]);
      [[s[0]] + t[0]] + t[1..]
  }

  /** `implode($d, $parts)`, the inverse of Explode. */
  function Join(d: char, parts: seq<string>): string
    requires |parts| >= 1
    decreases |parts|
  {
    if |parts| == 1 then parts[0] else parts[0] + [d] + Join(d, parts[1..])
  }

  function DigitChar(n: nat): char
    requires n < 10
  {
    "0123456789"[n]
  }

  function DigitValue(c: char): nat
  {
    if '0' <= c <= '9' then (c as int - '0' as int) as nat else 0
  }

  predicate IsDigit(c: char)
  {
    '0' <= c <= '9'
  }

  /** Decimal rendering of a natural number, as PHP's string conversion writes it. */
  function NatToString(n: nat): (r: string)
    ensures |r| >= 1 && forall i :: 0 <= i < |r| ==> IsDigit(r[i])
    ensures r[0] == '0' ==> n == 0
    decreases n
  {
    if n < 10 then [DigitChar(n)] else NatToString(n / 10) + [DigitChar(n % 10)]
  }

  function IntToString(i: int): string
  {
    if i < 0 then "-" + NatToString(-i) else NatToString(i)
  }

  /** The value of a string of digits. */
  function DigitsValue(s: string): nat
    decreases |s|
  {
    if s == [] then 0 else 10 * DigitsValue(s[..|s| - 1]) + DigitValue(s[|s| - 1])
  }

  /**
   * PHP turns an array key that is a canonical decimal integer ("0", "17",
   * but not "07" or "") into an integer key; this recognises the
   * non-negative ones.
   */
  function ParseCanonicalNat(s: string): Option<nat>
  {
    if s != [] && (forall i :: 0 <= i < |s| ==> IsDigit(s[i])) && (s[0] == '0' ==> |s| == 1)
    then Some(DigitsValue(s))
    else None
  }

  // ---------------------------------------------------------------------
  // Lemmas

  lemma {:induction false} ContainsTail(s: string, needle: string)
    requires s != [] && Contains(s[1..], needle)
    ensures Contains(s, needle)
  {
  }

  /** Replacing a string that does not occur leaves the subject unchanged. */
  lemma {:induction false} ReplaceAllAbsent(s: string, from: string, to: string)
    requires from != [] && !Contains(s, from)
    ensures ReplaceAll(s, from, to) == s
    decreases |s|
  {
    if s != [] {
      ReplaceAllAbsent(s[1..], from, to);
    }
  }

  /** A one-character str_replace works character by character. */
  lemma {:induction false} ReplaceCharPointwise(s: string, a: char, b: char)
    ensures |ReplaceAll(s, [a], [b])| == |s|
    ensures forall i :: 0 <= i < |s| ==> ReplaceAll(s, [a], [b])[i] == if s[i] == a then b else s[i]
    decreases |s|
  {
    if s != [] {
      ReplaceCharPointwise(s[1..], a, b);
      var r := ReplaceAll(s, [a], [b]);
      var t := ReplaceAll(s[1..], [a], [b]);
      assert r == [if s[0] == a then b else s[0]] + t;
    }
  }

  /** After replacing a character by a different one, it no longer occurs. */
  lemma ReplaceCharRemoves(s: string, a: char, b: char)
    requires a != b
    ensures a !in ReplaceAll(s, [a], [b])
  {
    ReplaceCharPointwise(s, a, b);
  }

  /** Removing every "[]" from P + "[]" gives P back when P holds no "[]". */
  lemma {:induction false} RemoveTrailingMarker(p: string)
    requires !Contains(p, "[]")
    ensures ReplaceAll(p + "[]", "[]", "") == p
    decreases |p|
  {
    var s := p + "[]";
    if p == [] {
      assert StartsWith(s, "[]");
      assert s[2..] == [];
    } else {
      assert !StartsWith(s, "[]") by {
        if |p| >= 2 {
          assert s[..2] == p[..2];
        } else {
          assert s[1] == '[';
        }
      }
      assert s[1..] == p[1..] + "[]";
      if Contains(p[1..], "[]") {
        ContainsTail(p, "[]");
      }
      RemoveTrailingMarker(p[1..]);
    }
  }

  /** explode and implode are inverse for a one-character delimiter. */
  lemma {:induction false} JoinExplode(d: char, s: string)
    ensures Join(d, Explode(d, s)) == s
    decreases |s|
  {
    if s != [] {
      JoinExplode(d, s[1..]);
      var t := Explode(d, s[1..]);
      if s[0] == d {
        assert Explode(d, s) == [[]] + t;
        assert Explode(d, s)[1..] == t;
      } else {
        var r := Explode(d, s);
        assert r == [[s[0]] + t[0]] + t[1..];
        if |t| == 1 {
          assert r == [[s[0]] + t[0]];
        } else {
          assert r[1..] == t[1..];
          assert Join(d, r) == [s[0]] + t[0] + [d] + Join(d, t[1..]);
        }
      }
    }
  }

  /** A string without the delimiter explodes into itself. */
  lemma {:induction false} ExplodeNoDelimiter(d: char, s: string)
    requires d !in s
    ensures Explode(d, s) == [s]
    decreases |s|
  {
    if s != [] {
      assert d !in s[1..];
      ExplodeNoDelimiter(d, s[1..]);
      assert [s[0]] + s[1..] == s;
    }
  }

  /** A leading delimiter-free part followed by the delimiter becomes the first part. */
  lemma {:induction false} ExplodeCons(d: char, a: string, b: string)
    requires d !in a
    ensures Explode(d, a + [d] + b) == [a] + Explode(d, b)
    decreases |a|
  {
    if a == [] {
      assert a + [d] + b == [d] + b;
      assert ([d] + b)[1..] == b;
    } else {
      assert d !in a[1..];
      ExplodeCons(d, a[1..], b);
      var s := a + [d] + b;
      assert s[0] == a[0] && s[1..] == a[1..] + [d] + b;
      assert [a[0]] + a[1..] == a;
    }
  }

  lemma {:induction false} DigitsValueSnoc(s: string, c: char)
    ensures DigitsValue(s + [c]) == 10 * DigitsValue(s) + DigitValue(c)
  {
    assert (s + [c])[..|s + [c]| - 1] == s;
  }

  /** Reading back the decimal rendering of n gives n. */
  lemma {:induction false} ParseNatToString(n: nat)
    ensures ParseCanonicalNat(NatToString(n)) == Some(n)
    ensures DigitsValue(NatToString(n)) == n
    decreases n
  {
    if n >= 10 {
      ParseNatToString(n / 10);
      DigitsValueSnoc(NatToString(n / 10), DigitChar(n % 10));
      assert DigitValue(DigitChar(n % 10)) == n % 10;
    } else {
      assert DigitValue(DigitChar(n)) == n;
      assert DigitsValue(NatToString(n)) == 10 * DigitsValue([]) + DigitValue(DigitChar(n));
    }
  }
}
