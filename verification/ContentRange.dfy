/**
 * The Content-Range response header of section 4.2 of RFC 7233, as the downloader
 * accepts it: the pattern `^bytes ([0-9]+)-([0-9]+)/(\*|[0-9]+)$` followed by
 * three conversions to `uint64`.
 */
module ContentRange {
  import opened Base

  datatype Range = Range(start: nat, stop: nat, total: Option<nat>)

  predicate IsDigit(c: char) {
    '0' <= c <= '9'
  }

  predicate AllDigits(s: string) {
    s != [] && forall i | 0 <= i < |s| :: IsDigit(s[i])
  }

  /** The number a non-empty string of digits denotes. */
  function Numeral(s: string): nat
    requires forall i | 0 <= i < |s| :: IsDigit(s[i])
  {
    if s == [] then 0
    else
      var last := s[|s| - 1];
      assert IsDigit(last);
      10 * Numeral(s[..|s| - 1]) + (last as int - '0' as int)
  }

  /** `strconv.ParseUint(s, 10, 64)` on a string of digits. */
  function ParseUint(s: string): Option<nat>
    requires AllDigits(s)
  {
    if Numeral(s) < U64 then Some(Numeral(s)) else None
  }

  /** The length of the longest prefix of `s` that consists of digits. */
  function DigitSpan(s: string): (n: nat)
    ensures n <= |s| && (n < |s| ==> !IsDigit(s[n]))
    ensures forall i | 0 <= i < n :: IsDigit(s[i])
  {
    if s == [] || !IsDigit(s[0]) then 0 else 1 + DigitSpan(s[1..])
  }

  /** Splits `a + [sep] + rest` after a number `a`. */
  function TakeNumber(s: string, sep: char): (r: Option<(string, string)>)
    ensures r.Some? ==> AllDigits(r.value.0) && s == r.value.0 + ([sep] + r.value.1)
  {
    var n := DigitSpan(s);
    if n == 0 || n == |s| || s[n] != sep then None
    else
      assert s == s[..n] + ([sep] + s[n + 1..]);
      Some((s[..n], s[n + 1..]))
  }

  const PREFIX: string := "bytes "

  /** What the pattern says: `h` matches with capture groups `a`, `b` and `c`. */
  predicate Captures(h: string, a: string, b: string, c: string) {
    && h == PREFIX + (a + ("-" + (b + ("/" + c))))
    && AllDigits(a) && AllDigits(b) && (c == "*" || AllDigits(c))
  }

  /** The three capture groups of the pattern. */
  function Match(h: string): (m: Option<(string, string, string)>)
    ensures m.Some? ==> Captures(h, m.value.0, m.value.1, m.value.2)
  {
    if !(PREFIX <= h) then None else
    var first := TakeNumber(h[|PREFIX|..], '-');
    if first.None? then None else
    var second := TakeNumber(first.value.1, '/');
    if second.None? then None else
    var c := second.value.1;
    if c != "*" && (c == [] || DigitSpan(c) != |c|) then None else
    assert h == PREFIX + h[|PREFIX|..];
    Some((first.value.0, second.value.0, c))
  }

  function ParseContentRange(h: string): Option<Range> {
    match Match(h)
    case None => None
    case Some((a, b, c)) => ConvertGroups(a, b, c)
  }

  /** The conversions to `uint64`, the last one only if the group is not "*". */
  function ConvertGroups(a: string, b: string, c: string): Option<Range>
    requires AllDigits(a) && AllDigits(b) && (c == "*" || AllDigits(c))
  {
    if ParseUint(a).None? || ParseUint(b).None? then None else
    var start, stop := ParseUint(a).value, ParseUint(b).value;
    if stop < start then None
    else if c == "*" then Some(Range(start, stop, None))
    else if ParseUint(c).None? then None
    else Some(Range(start, stop, ParseUint(c)))
  }

  lemma {:induction false} DigitSpanOfNumber(a: string, rest: string)
    requires forall i | 0 <= i < |a| :: IsDigit(a[i])
    requires rest == [] || !IsDigit(rest[0])
    ensures DigitSpan(a + rest) == |a|
  {
    if a == [] {
      assert a + rest == rest;
    } else {
      assert (a + rest)[1..] == a[1..] + rest;
      DigitSpanOfNumber(a[1..], rest);
    }
  }

  lemma TakeNumberComplete(a: string, sep: char, rest: string)
    requires AllDigits(a) && !IsDigit(sep)
    ensures TakeNumber(a + ([sep] + rest), sep) == Some((a, rest))
  {
    DigitSpanOfNumber(a, [sep] + rest);
    var s := a + ([sep] + rest);
    assert s[..|a|] == a && s[|a| + 1..] == rest;
  }

  /** The matcher finds every decomposition the pattern allows, so there is only one. */
  lemma MatchIsComplete(h: string, a: string, b: string, c: string)
    requires Captures(h, a, b, c)
    ensures Match(h) == Some((a, b, c))
  {
    TakeNumberComplete(a, '-', b + ("/" + c));
    TakeNumberComplete(b, '/', c);
    assert h[|PREFIX|..] == a + ("-" + (b + ("/" + c)));
    if c != "*" {
      DigitSpanOfNumber(c, []);
      assert c + [] == c;
    }
  }

  /** The capture groups are the numbers of `r`, which fit in 64 bits and do not run backwards. */
  ghost predicate Denotes(a: string, b: string, c: string, r: Range)
    requires AllDigits(a) && AllDigits(b) && (c == "*" || AllDigits(c))
  {
    && Numeral(a) == r.start && Numeral(b) == r.stop && r.start <= r.stop < U64
    && (if c == "*" then r.total.None? else r.total == Some(Numeral(c)) && Numeral(c) < U64)
  }

  lemma DenotesIsConversion(a: string, b: string, c: string, r: Range)
    requires AllDigits(a) && AllDigits(b) && (c == "*" || AllDigits(c))
    ensures ConvertGroups(a, b, c) == Some(r) <==> Denotes(a, b, c, r)
  {
  }

  /**
   * The accepted headers are exactly those of the form `bytes a-b/c` that denote a
   * range, and the result is what they denote.
   */
  lemma AcceptsExactly(h: string, r: Range)
    ensures ParseContentRange(h) == Some(r) <==>
      exists a, b, c :: Captures(h, a, b, c) && Denotes(a, b, c, r)
  {
    if a, b, c :| Captures(h, a, b, c) && Denotes(a, b, c, r) {
      MatchIsComplete(h, a, b, c);
      DenotesIsConversion(a, b, c, r);
    }
    if ParseContentRange(h) == Some(r) {
      var (a, b, c) := Match(h).value;
      DenotesIsConversion(a, b, c, r);
    }
  }

  // ----- printing -----

  /** The decimal representation without leading zeros. */
  function Decimal(n: nat): (s: string)
    ensures AllDigits(s) && Numeral(s) == n
  {
    var digit := [('0' as int + n % 10) as char];
    if n < 10 then
      assert Numeral(digit[..0]) == 0;
      digit
    else
      var front := Decimal(n / 10);
      assert (front + digit)[..|front|] == front;
      front + digit
  }

  function Print(r: Range): string {
    var total := if r.total.None? then "*" else Decimal(r.total.value);
    PREFIX + (Decimal(r.start) + ("-" + (Decimal(r.stop) + ("/" + total))))
  }

  /** Printing a header and parsing it again gives the same three values. */
  lemma PrintThenParse(r: Range)
    requires r.start <= r.stop < U64
    requires r.total.Some? ==> r.total.value < U64
    ensures ParseContentRange(Print(r)) == Some(r)
  {
    var c := if r.total.None? then "*" else Decimal(r.total.value);
    assert r.total.Some? ==> IsDigit(c[0]);
    DenotesIsConversion(Decimal(r.start), Decimal(r.stop), c, r);
    MatchIsComplete(Print(r), Decimal(r.start), Decimal(r.stop), c);
  }
}
