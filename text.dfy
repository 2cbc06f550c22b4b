/**
  `to_upper_camel_case`: lower_snake_case to UpperCamelCase. The first
  character is uppercased, and in the rest every `_` directly followed by a
  lower-case ASCII letter is dropped and the letter uppercased, in one
  left-to-right pass of non-overlapping matches (`re.sub(r'_([a-z])', ...)`).
 */
module Text {
  import opened Strings

  /** The regular-expression substitution on `value[1:]`. */
  function UnderscoreToUpper(s: string): string
    decreases |s|
  {
    if |s| >= 2 && s[0] == '_' && IsAsciiLower(s[1]) then [UpperChar(s[1])] + UnderscoreToUpper(s[2..])
    else if s == [] then []
    else [s[0]] + UnderscoreToUpper(s[1..])
  }

  /** The number of matches that pass replaces. */
  function Replacements(s: string): nat
    decreases |s|
  {
    if |s| >= 2 && s[0] == '_' && IsAsciiLower(s[1]) then 1 + Replacements(s[2..])
    else if s == [] then 0
    else Replacements(s[1..])
  }

  /** No `_` is directly followed by a lower-case letter. */
  ghost predicate NoJoint(s: string) {
    forall i :: 0 <= i < |s| - 1 ==> !(s[i] == '_' && IsAsciiLower(s[i + 1]))
  }

  function ToUpperCamelCase(value: string): (r: string)
    ensures |value| <= 1 ==> r == Upper(value)
    ensures |value| > 0 ==> |r| > 0 && r[0] == UpperChar(value[0])
  {
    if |value| <= 1 then Upper(value) else [UpperChar(value[0])] + UnderscoreToUpper(value[1..])
  }

  /** Every replacement shortens the string by one, and removes one underscore. */
  lemma {:induction false} UnderscoreToUpperCounts(s: string)
    ensures |UnderscoreToUpper(s)| == |s| - Replacements(s)
    ensures CountChar(UnderscoreToUpper(s), '_') == CountChar(s, '_') - Replacements(s)
    decreases |s|
  {
    if |s| >= 2 && s[0] == '_' && IsAsciiLower(s[1]) {
      UnderscoreToUpperCounts(s[2..]);
      assert s[1..][1..] == s[2..];
      assert UnderscoreToUpper(s)[1..] == UnderscoreToUpper(s[2..]);
    } else if s != [] {
      UnderscoreToUpperCounts(s[1..]);
      assert UnderscoreToUpper(s)[1..] == UnderscoreToUpper(s[1..]);
    }
  }

  /** A string without a match is left unchanged; in particular one without `_`. */
  lemma {:induction false} UnderscoreToUpperNoJoint(s: string)
    requires NoJoint(s)
    ensures UnderscoreToUpper(s) == s
    decreases |s|
  {
    if s != [] {
      assert NoJoint(s[1..]) by {
        forall i | 0 <= i < |s[1..]| - 1 ensures !(s[1..][i] == '_' && IsAsciiLower(s[1..][i + 1])) {
          assert s[1..][i] == s[i + 1] && s[1..][i + 1] == s[i + 2];
        }
      }
      UnderscoreToUpperNoJoint(s[1..]);
    }
  }

  lemma UnderscoreToUpperFirst(s: string)
    requires s != [] && !IsAsciiLower(s[0])
    ensures UnderscoreToUpper(s) != [] && !IsAsciiLower(UnderscoreToUpper(s)[0])
  {
  }

  /** The pass leaves no match behind. */
  lemma {:induction false} UnderscoreToUpperLeavesNoJoint(s: string)
    ensures NoJoint(UnderscoreToUpper(s))
    decreases |s|
  {
    var r := UnderscoreToUpper(s);
    if |s| >= 2 && s[0] == '_' && IsAsciiLower(s[1]) {
      UnderscoreToUpperLeavesNoJoint(s[2..]);
      assert r == [UpperChar(s[1])] + UnderscoreToUpper(s[2..]);
      forall i | 0 <= i < |r| - 1 ensures !(r[i] == '_' && IsAsciiLower(r[i + 1])) {
        if i > 0 {
          assert r[i] == UnderscoreToUpper(s[2..])[i - 1] && r[i + 1] == UnderscoreToUpper(s[2..])[i];
        }
      }
    } else if s != [] {
      UnderscoreToUpperLeavesNoJoint(s[1..]);
      assert r == [s[0]] + UnderscoreToUpper(s[1..]);
      if |s| >= 2 && s[0] == '_' {
        UnderscoreToUpperFirst(s[1..]);
      }
      forall i | 0 <= i < |r| - 1 ensures !(r[i] == '_' && IsAsciiLower(r[i + 1])) {
        if i > 0 {
          assert r[i] == UnderscoreToUpper(s[1..])[i - 1] && r[i + 1] == UnderscoreToUpper(s[1..])[i];
        }
      }
    }
  }

  /** Converting twice is converting once. */
  lemma ToUpperCamelCaseIdempotent(value: string)
    ensures ToUpperCamelCase(ToUpperCamelCase(value)) == ToUpperCamelCase(value)
  {
    var r := ToUpperCamelCase(value);
    if |value| > 1 {
      UnderscoreToUpperLeavesNoJoint(value[1..]);
      assert r[1..] == UnderscoreToUpper(value[1..]);
      if |r| > 1 {
        UnderscoreToUpperNoJoint(r[1..]);
        assert ToUpperCamelCase(r) == [r[0]] + r[1..];
      }
    }
  }

  /** The length of the result, and what was removed. */
  lemma ToUpperCamelCaseLength(value: string)
    requires |value| > 1
    ensures |ToUpperCamelCase(value)| == |value| - Replacements(value[1..])
    ensures CountChar(ToUpperCamelCase(value), '_') == CountChar(value, '_') - Replacements(value[1..])
  {
    UnderscoreToUpperCounts(value[1..]);
    assert value == [value[0]] + value[1..];
    assert ToUpperCamelCase(value)[1..] == UnderscoreToUpper(value[1..]);
  }
}
