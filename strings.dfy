/**
  The handful of Python string operations the source relies on, on `seq<char>`:
  the `in` substring test, `string_contains_any_of`, ASCII `lower`/`upper`,
  `replace` of a single character, `join`, and decimal rendering of integers.
 */
module Strings {

  /** `needle` occurs in `hay` starting at index `i`. */
  ghost predicate OccursAt(hay: string, needle: string, i: int) {
    0 <= i && i + |needle| <= |hay| && hay[i..i + |needle|] == needle
  }

  /** Python's `needle in hay`, scanning every start position. */
  predicate Contains(hay: string, needle: string)
    decreases |hay|
  {
    needle <= hay || (|hay| > 0 && Contains(hay[1..], needle))
  }

  /** An occurrence at any position is found by `Contains`. */
  lemma {:induction false} OccursAtContains(hay: string, needle: string, i: int)
    requires OccursAt(hay, needle, i)
    ensures Contains(hay, needle)
    decreases i
  {
    if i == 0 {
      assert hay[..|needle|] == needle;
    } else {
      assert hay[1..][i - 1..i - 1 + |needle|] == hay[i..i + |needle|];
      OccursAtContains(hay[1..], needle, i - 1);
    }
  }

  /** `Contains` agrees with the positional definition of a substring. */
  lemma {:induction false} ContainsIff(hay: string, needle: string)
    ensures Contains(hay, needle) <==> exists i :: OccursAt(hay, needle, i)
    decreases |hay|
  {
    if exists i :: OccursAt(hay, needle, i) {
      var i :| OccursAt(hay, needle, i);
      OccursAtContains(hay, needle, i);
    }
    if Contains(hay, needle) {
      if needle <= hay {
        assert OccursAt(hay, needle, 0);
      } else {
        ContainsIff(hay[1..], needle);
        var i :| OccursAt(hay[1..], needle, i);
        assert hay[1..][i..i + |needle|] == hay[i + 1..i + 1 + |needle|];
        assert OccursAt(hay, needle, i + 1);
      }
    }
  }

  /** A string that contains a needle contains every prefix of that needle. */
  lemma {:induction false} ContainsPrefix(hay: string, needle: string, p: string)
    requires p <= needle && Contains(hay, needle)
    ensures Contains(hay, p)
    decreases |hay|
  {
    if !(needle <= hay) {
      ContainsPrefix(hay[1..], needle, p);
    }
  }

  /**
    `string_contains_any_of(hay, *needles)`. The helper is imported by the
    themes but its definition is not part of this model; it is taken to mean
    "some needle is a substring of `hay`".
   */
  predicate ContainsAnyOf(hay: string, needles: seq<string>) {
    exists i :: 0 <= i < |needles| && Contains(hay, needles[i])
  }

  predicate IsAsciiUpper(c: char) {
    'A' <= c <= 'Z'
  }

  predicate IsAsciiLower(c: char) {
    'a' <= c <= 'z'
  }

  function LowerChar(c: char): char {
    if IsAsciiUpper(c) then (c as int + 32) as char else c
  }

  function UpperChar(c: char): char {
    if IsAsciiLower(c) then (c as int - 32) as char else c
  }

  /** `s.lower()` on ASCII letters. */
  function Lower(s: string): (r: string)
    ensures |r| == |s|
    ensures forall i :: 0 <= i < |s| ==> r[i] == LowerChar(s[i])
  {
    seq(|s|, i requires 0 <= i < |s| => LowerChar(s[i]))
  }

  /** `s.upper()` on ASCII letters. */
  function Upper(s: string): (r: string)
    ensures |r| == |s|
    ensures forall i :: 0 <= i < |s| ==> r[i] == UpperChar(s[i])
  {
    seq(|s|, i requires 0 <= i < |s| => UpperChar(s[i]))
  }

  predicate HasAsciiUpper(s: string) {
    exists i :: 0 <= i < |s| && IsAsciiUpper(s[i])
  }

  /**
    Lowering leaves no ASCII capital, changes nothing in a string that has
    none, and so lowering twice is lowering once.
   */
  lemma LowerFacts(s: string)
    ensures !HasAsciiUpper(Lower(s))
    ensures !HasAsciiUpper(s) ==> Lower(s) == s
    ensures Lower(Lower(s)) == Lower(s)
  {
    assert !HasAsciiUpper(Lower(s));
  }

  /** Upper-casing forgets whether the string was lowered first. */
  lemma UpperOfLower(s: string)
    ensures Upper(Lower(s)) == Upper(s)
  {
    forall i | 0 <= i < |s| ensures UpperChar(LowerChar(s[i])) == UpperChar(s[i]) {
      if IsAsciiUpper(s[i]) {
        assert LowerChar(s[i]) as int == s[i] as int + 32;
      }
    }
  }

  /** A lowercased string never contains a needle that has an upper-case letter. */
  lemma LowerNeverContainsUpper(s: string, needle: string)
    requires HasAsciiUpper(needle)
    ensures !Contains(Lower(s), needle)
  {
    var j :| 0 <= j < |needle| && IsAsciiUpper(needle[j]);
    forall i ensures !OccursAt(Lower(s), needle, i) {
      if 0 <= i && i + |needle| <= |s| {
        assert Lower(s)[i..i + |needle|][j] == Lower(s)[i + j];
      }
    }
    ContainsIff(Lower(s), needle);
  }

  /** `s.replace(c, with)` for a one-character `c`. */
  function ReplaceChar(s: string, c: char, with: string): (r: string)
    ensures c !in s ==> r == s
    decreases |s|
  {
    if s == [] then []
    else (if s[0] == c then with else [s[0]]) + ReplaceChar(s[1..], c, with)
  }

  /** A one-character string: the character becomes `with` when it is `c`, and stays otherwise. */
  lemma ReplaceCharSingle(x: char, c: char, with: string)
    ensures ReplaceChar([x], c, with) == if x == c then with else [x]
  {
    assert [x][1..] == [];
  }

  /**
    Replacing distributes over concatenation; with ReplaceCharSingle this pins
    the result: every `c` becomes `with` and every other character stays, in order.
   */
  lemma {:induction false} ReplaceCharAppend(a: string, b: string, c: char, with: string)
    ensures ReplaceChar(a + b, c, with) == ReplaceChar(a, c, with) + ReplaceChar(b, c, with)
    decreases |a|
  {
    if a == [] {
      assert a + b == b;
    } else {
      assert (a + b)[0] == a[0];
      assert (a + b)[1..] == a[1..] + b;
      ReplaceCharAppend(a[1..], b, c, with);
    }
  }

  /** The number of occurrences of `c` in `s`. */
  function CountChar(s: string, c: char): nat
    decreases |s|
  {
    if s == [] then 0 else (if s[0] == c then 1 else 0) + CountChar(s[1..], c)
  }

  /** Removing a character shortens the string by its number of occurrences, and removes all of them. */
  lemma {:induction false} ReplaceCharByEmpty(s: string, c: char)
    ensures |ReplaceChar(s, c, "")| == |s| - CountChar(s, c)
    ensures c !in ReplaceChar(s, c, "")
    decreases |s|
  {
    if s != [] {
      ReplaceCharByEmpty(s[1..], c);
    }
  }

  /** `sep.join(parts)` */
  function Join(sep: string, parts: seq<string>): (r: string)
    ensures parts == [] ==> r == ""
    ensures |parts| == 1 ==> r == parts[0]
    decreases |parts|
  {
    if parts == [] then ""
    else if |parts| == 1 then parts[0]
    else parts[0] + sep + Join(sep, parts[1..])
  }

  /** The number of occurrences of `c` adds up over a concatenation. */
  lemma {:induction false} CountCharAppend(a: string, b: string, c: char)
    ensures CountChar(a + b, c) == CountChar(a, c) + CountChar(b, c)
    decreases |a|
  {
    if a == [] {
      assert a + b == b;
    } else {
      assert (a + b)[0] == a[0];
      assert (a + b)[1..] == a[1..] + b;
      CountCharAppend(a[1..], b, c);
    }
  }

  lemma {:induction false} CountCharAbsent(s: string, c: char)
    ensures CountChar(s, c) == 0 <==> c !in s
    decreases |s|
  {
    if s != [] {
      CountCharAbsent(s[1..], c);
      assert s == [s[0]] + s[1..];
    }
  }

  /** The summed lengths of the parts. */
  function TotalLength(parts: seq<string>): nat
    decreases |parts|
  {
    if parts == [] then 0 else |parts[0]| + TotalLength(parts[1..])
  }

  /** Joining two non-empty lists is joining each and putting the separator between. */
  lemma {:induction false} JoinAppend(sep: string, a: seq<string>, b: seq<string>)
    requires a != [] && b != []
    ensures Join(sep, a + b) == Join(sep, a) + sep + Join(sep, b)
    decreases |a|
  {
    if |a| > 1 {
      assert (a + b)[1..] == a[1..] + b;
      JoinAppend(sep, a[1..], b);
    }
  }

  /** The joined string holds every part and one separator between each two. */
  lemma {:induction false} JoinLength(sep: string, parts: seq<string>)
    requires parts != []
    ensures |Join(sep, parts)| == TotalLength(parts) + (|parts| - 1) * |sep|
    decreases |parts|
  {
    if |parts| > 1 {
      JoinLength(sep, parts[1..]);
    }
  }

  /**
    A character that occurs in no part occurs in the joined string exactly as
    often as in the separators.
   */
  lemma {:induction false} JoinCountChar(sep: string, parts: seq<string>, c: char)
    requires parts != []
    requires forall i :: 0 <= i < |parts| ==> c !in parts[i]
    ensures CountChar(Join(sep, parts), c) == (|parts| - 1) * CountChar(sep, c)
    decreases |parts|
  {
    CountCharAbsent(parts[0], c);
    if |parts| > 1 {
      JoinCountChar(sep, parts[1..], c);
      CountCharAppend(parts[0], sep + Join(sep, parts[1..]), c);
      CountCharAppend(sep, Join(sep, parts[1..]), c);
      assert parts[0] + sep + Join(sep, parts[1..]) == parts[0] + (sep + Join(sep, parts[1..]));
    }
  }

  /** A character found neither in the separator nor in any part is not in the joined string. */
  lemma {:induction false} JoinAvoids(sep: string, parts: seq<string>, c: char)
    requires c !in sep
    requires forall i :: 0 <= i < |parts| ==> c !in parts[i]
    ensures c !in Join(sep, parts)
    decreases |parts|
  {
    if |parts| > 1 {
      JoinAvoids(sep, parts[1..], c);
      assert c !in parts[0];
    }
  }

  function DigitChar(d: nat): char
    requires d < 10
  {
    "0123456789"[d]
  }

  /** The value of a decimal digit. */
  function DigitValue(c: char): int {
    c as int - '0' as int
  }

  /** The number a string of decimal digits denotes, most significant digit first. */
  function DecimalValue(s: string): int
    decreases |s|
  {
    if s == [] then 0 else 10 * DecimalValue(s[..|s| - 1]) + DigitValue(s[|s| - 1])
  }

  lemma DigitCharValue(d: nat)
    requires d < 10
    ensures DigitValue(DigitChar(d)) == d && '0' <= DigitChar(d) <= '9'
  {
  }

  /**
    `str(n)` for a non-negative integer: decimal digits that denote `n`, with
    no leading zero except in `0` itself.
   */
  function NatToString(n: nat): (r: string)
    ensures |r| > 0
    ensures forall i :: 0 <= i < |r| ==> '0' <= r[i] <= '9'
    ensures DecimalValue(r) == n
    ensures r[0] == '0' ==> n == 0 && r == "0"
    decreases n
  {
    if n < 10 then
      DigitCharValue(n);
      [DigitChar(n)]
    else
      var head := NatToString(n / 10);
      var r := head + [DigitChar(n % 10)];
      DigitCharValue(n % 10);
      assert r[..|r| - 1] == head;
      r
  }
}
