/** The byte-range recognizer (files.go), against sections 14.1.1 and 14.1.2 of RFC 9110. */
module ByteRange {
  import opened Wrappers

  datatype RangeError = WrongUnit | NotOneRange | NoBounds | BadBound(name: string) | ZeroSuffix | EndBeforeStart

  const PREFIX := "bytes="
  const MAX_INT64 := 0x7FFF_FFFF_FFFF_FFFF

  /* ---- the grammar ---- */

  // int-range with and without last-pos, and suffix-range; the positions are
  // the digit strings as written.
  datatype Spec = Closed(first: string, last: string) | From(first: string) | Suffix(length: string)

  predicate AllDigits(s: string) {
    forall k :: 0 <= k < |s| ==> '0' <= s[k] <= '9'
  }

  function Value(s: string): nat
    requires AllDigits(s)
  {
    if s == "" then 0 else 10 * Value(s[..|s| - 1]) + (s[|s| - 1] as int - '0' as int)
  }

  // 1*DIGIT, of any length and with any leading zeros, but below 2^63.
  predicate Position(s: string) {
    s != "" && AllDigits(s) && Value(s) < 0x8000_0000_0000_0000
  }

  predicate Valid(spec: Spec) {
    match spec
    case Closed(first, last) => Position(first) && Position(last) && Value(first) <= Value(last)
    case From(first) => Position(first)
    case Suffix(length) => Position(length) && Value(length) > 0
  }

  function Print(spec: Spec): string {
    match spec
    case Closed(first, last) => PREFIX + first + "-" + last
    case From(first) => PREFIX + first + "-"
    case Suffix(length) => PREFIX + "-" + length
  }

  /* ---- the recognizer ---- */

  // strings.Cut at the first hyphen; all of s if there is none.
  function CutAt(s: string): (n: nat)
    ensures n <= |s| && '-' !in s[..n] && (n < |s| ==> s[n] == '-')
  {
    if s == "" || s[0] == '-' then 0
    else
      var n := CutAt(s[1..]);
      assert s[..n + 1] == [s[0]] + s[1..][..n];
      n + 1
  }

  function CountHyphens(s: string): nat {
    if s == "" then 0 else (if s[0] == '-' then 1 else 0) + CountHyphens(s[1..])
  }

  predicate HasListOrSpace(s: string) {
    exists k :: 0 <= k < |s| && s[k] in {',', ' ', '\t', '\r', '\n'}
  }

  // strconv.ParseInt(text, 10, 64) on digits.
  function ParseInt(text: string): Option<nat>
    requires AllDigits(text)
  {
    if text == "" || Value(text) > MAX_INT64 then None else Some(Value(text))
  }

  method ParseBound(text: string) returns (n: Option<nat>)
    ensures n.Some? <==> Position(text)
    ensures n.Some? ==> n.value == Value(text)
  {
    for i := 0 to |text|
      invariant AllDigits(text[..i])
    {
      if text[i] < '0' || text[i] > '9' { return None; }
    }
    assert text[..|text|] == text;
    n := ParseInt(text);
  }

  ghost predicate Accepted(value: string) {
    exists spec :: Valid(spec) && value == Print(spec)
  }

  // Two good positions in the wrong order.
  ghost predicate Reversed(value: string) {
    exists a, b :: Position(a) && Position(b) && Value(b) < Value(a) && value == PREFIX + (a + "-" + b)
  }

  // Accepted are exactly the printed forms of valid ranges.
  method ValidateFileByteRange(value: string) returns (err: Option<RangeError>)
    ensures err.None? <==> Accepted(value)
    ensures err == Some(WrongUnit) <==> !(PREFIX <= value)
    ensures err == Some(EndBeforeStart) <==> Reversed(value)
  {
    if !(PREFIX <= value) {
      Explain(value);
      return Some(WrongUnit);
    }
    var spec := value[|PREFIX|..];
    if spec == "" || HasListOrSpace(spec) || CountHyphens(spec) != 1 {
      Explain(value);
      return Some(NotOneRange);
    }
    var cut := CutAt(spec);
    HyphenCount(spec);
    SidesDecide(value);
    err := CheckBounds(spec[..cut], spec[cut + 1..]);
  }

  // The checks on the texts left and right of the hyphen.
  method CheckBounds(startText: string, endText: string) returns (err: Option<RangeError>)
    ensures err.None? <==> Valid(Between(startText, endText))
    ensures err == Some(NoBounds) <==> startText == "" == endText
    ensures err == Some(ZeroSuffix) <==> startText == "" && Position(endText) && Value(endText) == 0
    ensures err == Some(EndBeforeStart)
            <==> Position(startText) && Position(endText) && Value(endText) < Value(startText)
    ensures err != Some(WrongUnit) && err != Some(NotOneRange)
  {
    if startText == "" && endText == "" { return Some(NoBounds); }
    if startText == "" {
      var suffix := ParseBound(endText);
      if suffix.None? { return Some(BadBound("suffix")); }
      if suffix.value == 0 { return Some(ZeroSuffix); }
      return None;
    }
    var start := ParseBound(startText);
    if start.None? { return Some(BadBound("start")); }
    if endText == "" { return None; }
    var end := ParseBound(endText);
    if end.None? { return Some(BadBound("end")); }
    if end.value < start.value { return Some(EndBeforeStart); }
    return None;
  }

  /* ---- numbers ---- */

  function Digit(d: nat): (c: char)
    requires d < 10
    ensures '0' <= c <= '9' && c as int - '0' as int == d
  {
    "0123456789"[d]
  }

  // A number in decimal, without leading zeros.
  function Decimal(n: nat): (s: string)
    ensures s != "" && AllDigits(s)
  {
    if n < 10 then [Digit(n)] else Decimal(n / 10) + [Digit(n % 10)]
  }

  function Zeros(k: nat): (s: string)
    ensures AllDigits(s)
  {
    if k == 0 then "" else Zeros(k - 1) + "0"
  }

  // Digit strings read as decimal numbers, whatever zeros they begin with.
  lemma {:induction false} ValueReadsDecimal(k: nat, n: nat)
    ensures AllDigits(Zeros(k) + Decimal(n)) && Value(Zeros(k) + Decimal(n)) == n
  {
    if n < 10 {
      ZerosAreZero(k);
      OneMoreDigit(Zeros(k), n);
    } else {
      var q, d := n / 10, n % 10;
      ValueReadsDecimal(k, q);
      OneMoreDigit(Zeros(k) + Decimal(q), d);
      Appended(Zeros(k), Decimal(q), [Digit(d)]);
    }
  }

  lemma Appended(a: string, b: string, c: string)
    ensures (a + b) + c == a + (b + c)
  {
  }

  lemma OneMoreDigit(s: string, d: nat)
    requires AllDigits(s) && d < 10
    ensures AllDigits(s + [Digit(d)]) && Value(s + [Digit(d)]) == 10 * Value(s) + d
  {
    var t := s + [Digit(d)];
    assert t[..|t| - 1] == s;
  }

  lemma {:induction false} ZerosAreZero(k: nat)
    ensures Value(Zeros(k)) == 0
  {
    if k > 0 {
      ZerosAreZero(k - 1);
      assert Zeros(k)[..|Zeros(k)| - 1] == Zeros(k - 1);
    }
  }

  // Exactly the numbers below 2^63 are positions, however many zeros precede them.
  lemma {:induction false} PositionsAreInt64(k: nat, n: nat)
    ensures Position(Zeros(k) + Decimal(n)) <==> n <= 9223372036854775807
  {
    ValueReadsDecimal(k, n);
  }

  /* ---- why ---- */

  // The texts on both sides of the hyphen.
  function Sides(spec: Spec): (string, string) {
    match spec
    case Closed(first, last) => (first, last)
    case From(first) => (first, "")
    case Suffix(length) => ("", length)
  }

  lemma {:induction false} NoHyphens(s: string)
    ensures CountHyphens(s) == 0 <==> '-' !in s
  {
    if s != "" { NoHyphens(s[1..]); assert s == [s[0]] + s[1..]; }
  }

  lemma {:induction false} CountSplit(a: string, b: string)
    ensures CountHyphens(a + b) == CountHyphens(a) + CountHyphens(b)
  {
    if a == "" {
      assert a + b == b;
    } else {
      CountSplit(a[1..], b);
      assert (a + b)[1..] == a[1..] + b;
    }
  }

  // With exactly one hyphen the cut is at it.
  lemma HyphenCount(s: string)
    requires CountHyphens(s) == 1
    ensures CutAt(s) < |s| && '-' !in s[CutAt(s) + 1..]
  {
    NoHyphens(s);
    var n := CutAt(s);
    assert s == s[..n] + ("-" + s[n + 1..]);
    CountSplit(s[..n], "-" + s[n + 1..]);
    CountSplit("-", s[n + 1..]);
    NoHyphens(s[..n]);
    NoHyphens(s[n + 1..]);
  }

  // Every printed range is the prefix, its left side, a hyphen, its right side.
  lemma PrintSides(spec: Spec)
    requires Valid(spec)
    ensures var (a, b) := Sides(spec);
            && Print(spec) == PREFIX + (a + "-" + b)
            && AllDigits(a) && AllDigits(b)
            && spec == Between(a, b)
  {
    var (a, b) := Sides(spec);
    match spec {
      case Closed(_, _) => assert Print(spec) == PREFIX + (a + "-" + b);
      case From(_) => assert a + "-" + b == a + "-";
      case Suffix(_) => assert a + "-" + b == "-" + b;
    }
  }

  function Between(a: string, b: string): Spec {
    if a == "" then Suffix(b) else if b == "" then From(a) else Closed(a, b)
  }

  lemma DigitsOnly(a: string, b: string)
    requires AllDigits(a) && AllDigits(b)
    ensures var s := a + "-" + b; s != "" && !HasListOrSpace(s) && CountHyphens(s) == 1
  {
    var s := a + "-" + b;
    forall k | 0 <= k < |s| ensures s[k] == '-' || '0' <= s[k] <= '9' {
      if k < |a| { assert s[k] == a[k]; }
      if k > |a| { assert s[k] == b[k - |a| - 1]; }
    }
    assert s == a + ("-" + b);
    CountSplit(a, "-" + b);
    CountSplit("-", b);
    NoHyphens(a);
    NoHyphens(b);
    assert CountHyphens("-") == 1;
  }

  // A printed range, even a reversed one, passes the first two checks.
  lemma {:induction false} Explain(value: string)
    ensures Accepted(value) || Reversed(value) ==>
              PREFIX <= value
              && var s := value[|PREFIX|..];
                 s != "" && !HasListOrSpace(s) && CountHyphens(s) == 1
  {
    if Accepted(value) {
      var spec :| Valid(spec) && value == Print(spec);
      PrintSides(spec);
      var (a, b) := Sides(spec);
      DigitsOnly(a, b);
      assert value[|PREFIX|..] == a + "-" + b;
    }
    if Reversed(value) {
      var a, b :| Position(a) && Position(b) && Value(b) < Value(a) && value == PREFIX + (a + "-" + b);
      DigitsOnly(a, b);
      assert value[|PREFIX|..] == a + "-" + b;
    }
  }

  // Two decompositions around a hyphen-free left side are the same.
  lemma SameCut(a: string, b: string, c: string, d: string)
    requires a + "-" + b == c + "-" + d && '-' !in a && '-' !in c
    ensures a == c && b == d
  {
    var s := a + "-" + b;
    forall k | 0 <= k < |a| ensures s[k] != '-' { assert s[k] == a[k]; }
    forall k | 0 <= k < |c| ensures s[k] != '-' { assert s[k] == c[k]; }
    assert s[|a|] == '-' && s[|c|] == '-';
    assert s[..|a|] == a && s[..|c|] == c;
    assert s[|a| + 1..] == b && s[|c| + 1..] == d;
  }

  // The texts on both sides of the only hyphen decide.
  lemma SidesDecide(value: string)
    requires PREFIX <= value && CountHyphens(value[|PREFIX|..]) == 1
    requires CutAt(value[|PREFIX|..]) < |value| - |PREFIX|
    ensures var spec := value[|PREFIX|..];
            var a, b := spec[..CutAt(spec)], spec[CutAt(spec) + 1..];
            && (Accepted(value) <==> Valid(Between(a, b)))
            && (Reversed(value) <==> Position(a) && Position(b) && Value(b) < Value(a))
  {
    var spec := value[|PREFIX|..];
    HyphenCount(spec);
    var a, b := spec[..CutAt(spec)], spec[CutAt(spec) + 1..];
    assert spec == a + "-" + b;
    assert value == PREFIX + spec;
    Assemble(value, a, b);
  }

  // With the two sides known, acceptance is validity of the range they spell.
  lemma {:induction false} Assemble(value: string, a: string, b: string)
    requires value == PREFIX + (a + "-" + b) && '-' !in a && '-' !in b
    ensures Accepted(value) <==> Valid(Between(a, b))
    ensures Reversed(value) <==> Position(a) && Position(b) && Value(b) < Value(a)
  {
    if Valid(Between(a, b)) {
      PrintSides(Between(a, b));
      assert Sides(Between(a, b)) == (a, b);
    }
    if Accepted(value) {
      var other :| Valid(other) && value == Print(other);
      PrintSides(other);
      var (c, d) := Sides(other);
      assert value[|PREFIX|..] == a + "-" + b && value[|PREFIX|..] == c + "-" + d;
      SameCut(a, b, c, d);
    }
    if Reversed(value) {
      var c, d :| Position(c) && Position(d) && Value(d) < Value(c) && value == PREFIX + (c + "-" + d);
      assert value[|PREFIX|..] == a + "-" + b && value[|PREFIX|..] == c + "-" + d;
      SameCut(a, b, c, d);
    }
  }
}
