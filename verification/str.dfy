/** The few PHP string behaviours the package relies on. */
module Str {
  import opened Wrappers

  /** PHP truthiness of a string: only `""` and `"0"` are falsy. */
  predicate Truthy(s: string) {
    s != "" && s != "0"
  }

  /** PHP truthiness of a nullable string (`null` is falsy). */
  predicate TruthyOpt(s: Option<string>) {
    s.Some? && Truthy(s.value)
  }

  /** `str_contains($s, $c)` for a single character needle, scanning left to right. */
  predicate Contains(s: string, c: char) {
    ContainsFrom(s, c, 0)
  }

  /** Whether `c` occurs in `s` at position `i` or later. */
  predicate ContainsFrom(s: string, c: char, i: nat)
    decreases |s| - i
  {
    i < |s| && (s[i] == c || ContainsFrom(s, c, i + 1))
  }

  /** The scan agrees with sequence membership. */
  lemma {:induction false} ContainsFromIsMembership(s: string, c: char, i: nat)
    requires i <= |s|
    ensures ContainsFrom(s, c, i) <==> c in s[i..]
    decreases |s| - i
  {
    if i < |s| {
      ContainsFromIsMembership(s, c, i + 1);
      assert s[i..] == [s[i]] + s[i + 1..];
    }
  }

  lemma ContainsIsMembership(s: string, c: char)
    ensures Contains(s, c) <==> c in s
  {
    ContainsFromIsMembership(s, c, 0);
    assert s[0..] == s;
  }

  /** `Str::before($s, $c)`: the part before the first `c`, or all of `s` when there is none. */
  function Before(s: string, c: char): (r: string)
    ensures c !in r
    ensures r <= s
    ensures c !in s ==> r == s
    ensures c in s ==> |r| < |s| && s[|r|] == c
  {
    if s == [] then []
    else if s[0] == c then []
    else [s[0]] + Before(s[1..], c)
  }

  /** Decimal digit character of `d`. */
  function Digit(d: nat): (c: char)
    requires d < 10
    ensures '0' <= c <= '9'
  {
    "0123456789"[d]
  }

  /** Decimal rendering of a natural number, as PHP interpolates an int. */
  function NatToString(n: nat): (s: string)
    ensures |s| > 0
    ensures forall i :: 0 <= i < |s| ==> '0' <= s[i] <= '9'
  {
    if n < 10 then [Digit(n)] else NatToString(n / 10) + [Digit(n % 10)]
  }

  /** Decimal rendering of an int, with a leading `-` when negative. */
  function IntToString(n: int): (s: string)
    ensures |s| > 0
    ensures ':' !in s
  {
    if n < 0 then "-" + NatToString(-n) else NatToString(n)
  }

  /** PHP's `"{$x}"` interpolation of a nullable int: `null` renders as the empty string. */
  function Interpolate(n: Option<int>): (s: string)
    ensures ':' !in s
  {
    match n
    case None => ""
    case Some(v) => IntToString(v)
  }

  lemma {:induction false} BeforeAppend(prefix: string, c: char, suffix: string)
    requires c !in prefix
    ensures Before(prefix + [c] + suffix, c) == prefix
  {
    if prefix == [] {
      assert (prefix + [c] + suffix)[0] == c;
    } else {
      assert (prefix + [c] + suffix)[1..] == prefix[1..] + [c] + suffix;
      BeforeAppend(prefix[1..], c, suffix);
    }
  }
}
