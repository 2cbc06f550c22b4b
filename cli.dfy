/**
  `parse_settings`: turns command-line `key=value` settings into a dict and
  lays it over the defaults.
 */
module Cli {
  import opened Wrappers
  import opened Dicts

  /** The characters Python's `str.strip()` removes. */
  predicate IsSpace(c: char) {
    var k := c as int;
    || 9 <= k <= 13 || 28 <= k <= 32 || k == 0x85 || k == 0xA0 || k == 0x1680
    || 0x2000 <= k <= 0x200A || k == 0x2028 || k == 0x2029 || k == 0x202F || k == 0x205F || k == 0x3000
  }

  function LeadingSpace(s: string): (n: nat)
    ensures n <= |s|
    decreases |s|
  {
    if s != [] && IsSpace(s[0]) then 1 + LeadingSpace(s[1..]) else 0
  }

  function TrailingSpace(s: string): (n: nat)
    ensures n <= |s|
    decreases |s|
  {
    if s != [] && IsSpace(s[|s| - 1]) then 1 + TrailingSpace(s[..|s| - 1]) else 0
  }

  lemma {:induction false} LeadingSpaceFacts(s: string)
    ensures forall i :: 0 <= i < LeadingSpace(s) ==> IsSpace(s[i])
    ensures LeadingSpace(s) < |s| ==> !IsSpace(s[LeadingSpace(s)])
    decreases |s|
  {
    if s != [] && IsSpace(s[0]) {
      LeadingSpaceFacts(s[1..]);
      forall i | 1 <= i < LeadingSpace(s) ensures IsSpace(s[i]) {
        assert s[i] == s[1..][i - 1];
      }
    }
  }

  lemma {:induction false} TrailingSpaceFacts(s: string)
    ensures forall i :: |s| - TrailingSpace(s) <= i < |s| ==> IsSpace(s[i])
    ensures TrailingSpace(s) < |s| ==> !IsSpace(s[|s| - TrailingSpace(s) - 1])
    decreases |s|
  {
    if s != [] && IsSpace(s[|s| - 1]) {
      TrailingSpaceFacts(s[..|s| - 1]);
    }
  }

  /** `s.strip()` */
  function Strip(s: string): string {
    var t := s[LeadingSpace(s)..];
    t[..|t| - TrailingSpace(t)]
  }

  /** `r` is the slice of `s` at `a`, with only whitespace before and after it. */
  ghost predicate StrippedAt(s: string, r: string, a: int) {
    && 0 <= a <= a + |r| <= |s|
    && r == s[a..a + |r|]
    && (forall i :: 0 <= i < a ==> IsSpace(s[i]))
    && (forall i :: a + |r| <= i < |s| ==> IsSpace(s[i]))
  }

  /**
    The stripped string is a slice of `s` with only whitespace around it and
    none at its own ends; it is empty exactly when `s` is all whitespace.
   */
  lemma StripFacts(s: string)
    ensures exists a :: StrippedAt(s, Strip(s), a)
    ensures Strip(s) != [] ==> !IsSpace(Strip(s)[0]) && !IsSpace(Strip(s)[|Strip(s)| - 1])
    ensures Strip(s) == [] <==> forall i :: 0 <= i < |s| ==> IsSpace(s[i])
  {
    var a := LeadingSpace(s);
    var t := s[a..];
    var r := Strip(s);
    LeadingSpaceFacts(s);
    TrailingSpaceFacts(t);
    assert r == s[a..a + |r|];
    forall i | a + |r| <= i < |s| ensures IsSpace(s[i]) {
      assert s[i] == t[i - a];
    }
    assert StrippedAt(s, r, a);
    if r != [] {
      assert r[0] == s[a];
      assert r[|r| - 1] == t[|t| - TrailingSpace(t) - 1];
    } else {
      assert forall i :: 0 <= i < |s| ==> IsSpace(s[i]);
    }
  }

  /** The position of the first `c` in `s`. */
  function IndexOf(s: string, c: char): (r: Option<nat>)
    ensures r.None? <==> c !in s
    ensures r.Some? ==> r.value < |s| && s[r.value] == c && c !in s[..r.value]
    decreases |s|
  {
    if s == [] then None
    else if s[0] == c then Some(0)
    else
      var r := IndexOf(s[1..], c);
      assert s == [s[0]] + s[1..];
      if r.None? then None
      else
        assert s[..r.value + 1] == [s[0]] + s[1..][..r.value];
        Some(r.value + 1)
  }

  /** `setting.split('=')[0]` */
  function KeyText(setting: string): string {
    match IndexOf(setting, '=')
    case Some(i) => setting[..i]
    case None => setting
  }

  /** `'='.join(setting.split('=')[1:])` */
  function ValueText(setting: string): string {
    match IndexOf(setting, '=')
    case Some(i) => setting[i + 1..]
    case None => ""
  }

  /** Key and value split a setting at its first `=`, and nothing is lost. */
  lemma SplitAtFirstEquals(setting: string)
    ensures '=' !in KeyText(setting)
    ensures '=' in setting ==> setting == KeyText(setting) + "=" + ValueText(setting)
    ensures '=' !in setting ==> KeyText(setting) == setting && ValueText(setting) == ""
  {
    if '=' in setting {
      var i := IndexOf(setting, '=').value;
      assert setting == setting[..i] + [setting[i]] + setting[i + 1..];
    }
  }

  function KeyOf(setting: string): string {
    Strip(KeyText(setting))
  }

  datatype CliError = InvalidSetting {
    function Message(): string {
      "Invalid setting: key is empty"
    }
  }

  function ParseSetting(setting: string): Result<(string, string), CliError> {
    if KeyOf(setting) == "" then Failure(InvalidSetting) else Success((KeyOf(setting), ValueText(setting)))
  }

  /** The settings dict after the loop, or the error raised by the first setting with an empty key. */
  function ParsedSettings(settings: seq<string>): (r: Result<Dict<string, string>, CliError>)
    ensures r.Success? ==> r.value.Valid()
    decreases |settings|
  {
    if settings == [] then Success(Empty())
    else
      match ParsedSettings(settings[..|settings| - 1])
      case Failure(e) => Failure(e)
      case Success(d) =>
        match ParseSetting(settings[|settings| - 1])
        case Failure(e) => Failure(e)
        case Success(kv) => Success(d.Set(kv.0, kv.1))
  }

  function DefaultsOf(defaults: Option<Dict<string, string>>): Dict<string, string> {
    match defaults
    case Some(d) => d
    case None => Empty()
  }

  /** `(defaults or {}) | settings` */
  function Merged(settings: seq<string>, defaults: Option<Dict<string, string>>): Result<Dict<string, string>, CliError>
    requires DefaultsOf(defaults).Valid()
  {
    match ParsedSettings(settings)
    case Failure(e) => Failure(e)
    case Success(d) => Success(DefaultsOf(defaults).Union(d))
  }

  lemma {:induction false} ParsedStopsAtFailure(settings: seq<string>, k: nat)
    requires k <= |settings| && ParsedSettings(settings[..k]).Failure?
    ensures ParsedSettings(settings) == ParsedSettings(settings[..k])
    decreases |settings|
  {
    if k < |settings| {
      var init := settings[..|settings| - 1];
      assert init[..k] == settings[..k];
      ParsedStopsAtFailure(init, k);
    } else {
      assert settings[..k] == settings;
    }
  }

  method ParseSettings(settings: seq<string>, defaults: Option<Dict<string, string>>)
    returns (r: Result<Dict<string, string>, CliError>)
    requires DefaultsOf(defaults).Valid()
    ensures r == Merged(settings, defaults)
  {
    var parsed := Empty<string, string>();
    var i := 0;
    while i < |settings|
      invariant 0 <= i <= |settings|
      invariant ParsedSettings(settings[..i]) == Success(parsed)
    {
      var key := Strip(KeyText(settings[i]));
      var value := ValueText(settings[i]);
      assert settings[..i + 1][..i] == settings[..i];
      if key == "" {
        ParsedStopsAtFailure(settings, i + 1);
        return Failure(InvalidSetting);
      }
      parsed := parsed.Set(key, value);
      i := i + 1;
    }
    assert settings[..i] == settings;
    r := Success(DefaultsOf(defaults).Union(parsed));
  }

  /** One more setting fails the parse exactly when the earlier ones failed or its own key is empty. */
  lemma ParsedStepFails(settings: seq<string>)
    requires settings != []
    ensures ParsedSettings(settings).Failure?
            <==> ParsedSettings(settings[..|settings| - 1]).Failure? || KeyOf(settings[|settings| - 1]) == ""
  {
  }

  /** Some setting of the list has an empty key. */
  ghost predicate SomeKeyEmpty(settings: seq<string>) {
    exists i :: 0 <= i < |settings| && KeyOf(settings[i]) == ""
  }

  /** Some element of `xs + [x]` satisfies `p` exactly when one of `xs` does or `x` does. */
  lemma ExistsSnoc<T>(xs: seq<T>, x: T, p: T -> bool)
    ensures (exists i :: 0 <= i < |xs + [x]| && p((xs + [x])[i]))
            <==> (exists i :: 0 <= i < |xs| && p(xs[i])) || p(x)
  {
    var ys := xs + [x];
    if exists i :: 0 <= i < |xs| && p(xs[i]) {
      var i :| 0 <= i < |xs| && p(xs[i]);
      assert ys[i] == xs[i];
    }
    if p(x) {
      assert ys[|xs|] == x;
    }
    if exists i :: 0 <= i < |ys| && p(ys[i]) {
      var i :| 0 <= i < |ys| && p(ys[i]);
      if i < |xs| {
        assert xs[i] == ys[i];
      }
    }
  }

  lemma SomeKeyEmptySplit(settings: seq<string>)
    requires settings != []
    ensures SomeKeyEmpty(settings)
            <==> SomeKeyEmpty(settings[..|settings| - 1]) || KeyOf(settings[|settings| - 1]) == ""
  {
    var init, last := settings[..|settings| - 1], settings[|settings| - 1];
    assert settings == init + [last];
    ExistsSnoc(init, last, s => KeyOf(s) == "");
  }

  /** Parsing fails exactly when some setting's key is empty or all whitespace. */
  lemma {:induction false} ParsedFailsIff(settings: seq<string>)
    ensures ParsedSettings(settings).Failure? <==> exists i :: 0 <= i < |settings| && KeyOf(settings[i]) == ""
    decreases |settings|
  {
    if settings != [] {
      ParsedFailsIff(settings[..|settings| - 1]);
      ParsedStepFails(settings);
      SomeKeyEmptySplit(settings);
    }
  }

  /** The value of the last setting with key `k`. */
  function LastValue(settings: seq<string>, k: string): Option<string>
    decreases |settings|
  {
    if settings == [] then None
    else if KeyOf(settings[|settings| - 1]) == k then Some(ValueText(settings[|settings| - 1]))
    else LastValue(settings[..|settings| - 1], k)
  }

  function Lookup(d: Dict<string, string>, k: string): Option<string> {
    if k in d.m then Some(d.m[k]) else None
  }

  /** A later setting with the same key overrides an earlier one. */
  lemma {:induction false} ParsedLastWins(settings: seq<string>, k: string)
    requires ParsedSettings(settings).Success?
    ensures Lookup(ParsedSettings(settings).value, k) == LastValue(settings, k)
    decreases |settings|
  {
    if settings != [] {
      ParsedLastWins(settings[..|settings| - 1], k);
    }
  }

  /** A key has a last value exactly when some setting names it. */
  lemma {:induction false} LastValueIff(settings: seq<string>, k: string)
    ensures LastValue(settings, k).Some? <==> exists i :: 0 <= i < |settings| && KeyOf(settings[i]) == k
    decreases |settings|
  {
    if settings != [] {
      var init := settings[..|settings| - 1];
      LastValueIff(init, k);
      if KeyOf(settings[|settings| - 1]) == k {
      } else if LastValue(init, k).Some? {
        var i :| 0 <= i < |init| && KeyOf(init[i]) == k;
        assert settings[i] == init[i];
      } else {
        assert forall i :: 0 <= i < |init| ==> KeyOf(init[i]) != k;
        forall i | 0 <= i < |settings| ensures KeyOf(settings[i]) != k {
          if i < |init| {
            assert settings[i] == init[i];
          } else {
            assert i == |settings| - 1;
          }
        }
      }
    }
  }

  /** The parsed settings win over the defaults; every other default is kept. */
  lemma MergedLookup(settings: seq<string>, defaults: Option<Dict<string, string>>, k: string)
    requires DefaultsOf(defaults).Valid() && ParsedSettings(settings).Success?
    ensures Merged(settings, defaults).Success?
    ensures Lookup(Merged(settings, defaults).value, k)
            == if LastValue(settings, k).Some? then LastValue(settings, k) else Lookup(DefaultsOf(defaults), k)
  {
    ParsedLastWins(settings, k);
  }
}
