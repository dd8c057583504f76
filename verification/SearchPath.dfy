/** Search bucket paths (searchpath/searchpath.go). */
module SearchPath {
  import opened Wrappers
  import opened Text

  datatype Value = Text(bytes: seq<Byte>) | Truth(b: bool) | Nothing

  const DIGITS := "0123456789ABCDEF"

  function Hex(bytes: seq<Byte>): string {
    if bytes == [] then "" else [DIGITS[bytes[0] / 16], DIGITS[bytes[0] % 16]] + Hex(bytes[1..])
  }

  function EncodeStringValue(bytes: seq<Byte>): string {
    if bytes == [] then "empty" else Hex(bytes)
  }

  function Encode(v: Value): string {
    match v
    case Text(bytes) => EncodeStringValue(bytes)
    case Truth(b) => if b then "true" else "false"
    case Nothing => "null"
  }

  function EncodeAll(values: seq<Value>): seq<string> {
    if values == [] then [] else [Encode(values[0])] + EncodeAll(values[1..])
  }

  // ShardInput: the segments joined with slashes.
  function ShardInput(segments: seq<string>): string {
    Join(segments, '/')
  }

  // EqualsStringSegments
  method EqualsStringSegments(values: seq<seq<Byte>>) returns (out: array<string>)
    ensures out.Length == |values|
    ensures forall i :: 0 <= i < |values| ==> DecodeSegment(out[i]) == Some(Text(values[i]))
    ensures forall i :: 0 <= i < |values| ==> out[i] == EncodeStringValue(values[i])
  {
    out := new string[|values|](_ => "");
    for i := 0 to |values|
      invariant forall k :: 0 <= k < i ==>
                  DecodeSegment(out[k]) == Some(Text(values[k])) && out[k] == EncodeStringValue(values[k])
    {
      out[i] := EncodeStringValue(values[i]);
      SegmentRoundTrips(Text(values[i]));
      assert Encode(Text(values[i])) == out[i];
    }
  }

  /* ---- reading a path back ---- */

  function DigitValue(c: char): Option<nat> {
    if '0' <= c <= '9' then Some(c as int - '0' as int)
    else if 'A' <= c <= 'F' then Some(c as int - 'A' as int + 10)
    else None
  }

  function Unhex(s: string): Option<seq<Byte>> {
    if s == "" then Some([])
    else if |s| == 1 then None
    else
      match (DigitValue(s[0]), DigitValue(s[1]), Unhex(s[2..]))
      case (Some(a), Some(b), Some(rest)) => if 16 * a + b < 256 then Some([16 * a + b] + rest) else None
      case _ => None
  }

  function DecodeSegment(s: string): Option<Value> {
    if s == "empty" then Some(Text([]))
    else if s == "true" then Some(Truth(true))
    else if s == "false" then Some(Truth(false))
    else if s == "null" then Some(Nothing)
    else match Unhex(s) case Some(bytes) => if bytes == [] then None else Some(Text(bytes)) case None => None
  }

  function DecodeEach(parts: seq<string>): Option<seq<Value>> {
    if parts == [] then Some([])
    else
      match (DecodeSegment(parts[0]), DecodeEach(parts[1..]))
      case (Some(v), Some(rest)) => Some([v] + rest)
      case _ => None
  }

  function DecodePath(path: string): Option<seq<Value>> {
    if path == "" then Some([]) else DecodeEach(Split(path, '/'))
  }

  lemma DigitsRead(n: nat)
    requires n < 16
    ensures DigitValue(DIGITS[n]) == Some(n) && DIGITS[n] != '/' && !('a' <= DIGITS[n] <= 'z')
  {
  }

  lemma {:induction false} HexChars(bytes: seq<Byte>)
    ensures |Hex(bytes)| == 2 * |bytes|
    ensures forall k :: 0 <= k < |Hex(bytes)| ==> Hex(bytes)[k] != '/' && !('a' <= Hex(bytes)[k] <= 'z')
  {
    if bytes != [] {
      DigitsRead(bytes[0] / 16);
      DigitsRead(bytes[0] % 16);
      HexChars(bytes[1..]);
    }
  }

  lemma {:induction false} UnhexHex(bytes: seq<Byte>)
    ensures Unhex(Hex(bytes)) == Some(bytes)
  {
    if bytes != [] {
      var hi, lo, rest := bytes[0] / 16, bytes[0] % 16, Hex(bytes[1..]);
      DigitsRead(hi);
      DigitsRead(lo);
      UnhexHex(bytes[1..]);
      assert Hex(bytes)[2..] == rest;
      assert 16 * hi + lo == bytes[0];
      assert bytes == [bytes[0]] + bytes[1..];
    }
  }

  // What is written: two upper-case hexadecimal digits a byte, or a word.
  lemma {:induction false} WrittenForm(bytes: seq<Byte>, k: nat)
    requires k < |bytes|
    ensures |Encode(Text(bytes))| == 2 * |bytes|
    ensures Spells(Encode(Text(bytes))[2 * k], Encode(Text(bytes))[2 * k + 1], bytes[k])
    ensures Encode(Text([])) == "empty" && Encode(Nothing) == "null"
    ensures Encode(Truth(true)) == "true" && Encode(Truth(false)) == "false"
  {
    HexAt(bytes, k);
  }

  // Two upper-case hexadecimal digits with this value.
  predicate Spells(hi: char, lo: char, byte: Byte) {
    hi == "0123456789ABCDEF"[byte / 16] && lo == "0123456789ABCDEF"[byte % 16]
  }

  lemma {:induction false} HexAt(bytes: seq<Byte>, k: nat)
    requires k < |bytes|
    ensures |Hex(bytes)| == 2 * |bytes| && Spells(Hex(bytes)[2 * k], Hex(bytes)[2 * k + 1], bytes[k])
  {
    HexChars(bytes);
    if k == 0 {
      DigitsRead(bytes[0] / 16);
      DigitsRead(bytes[0] % 16);
    } else {
      HexAt(bytes[1..], k - 1);
      var rest := Hex(bytes[1..]);
      assert Hex(bytes)[2..] == rest;
      assert Hex(bytes)[2 * k] == rest[2 * (k - 1)] && Hex(bytes)[2 * k + 1] == rest[2 * (k - 1) + 1];
    }
  }

  // Every segment reads back, is not empty and holds no slash; so no encoded
  // string is mistaken for a boolean, null or another string.
  lemma {:induction false} SegmentRoundTrips(v: Value)
    ensures DecodeSegment(Encode(v)) == Some(v)
    ensures Encode(v) != "" && '/' !in Encode(v)
  {
    if v.Text? && v.bytes != [] {
      UnhexHex(v.bytes);
      HexChars(v.bytes);
      NotAWord(Hex(v.bytes));
    }
  }

  // No hexadecimal text is one of the four words.
  lemma NotAWord(h: string)
    requires forall k :: 0 <= k < |h| ==> !('a' <= h[k] <= 'z')
    ensures h !in {"empty", "true", "false", "null"}
  {
    assert "empty"[0] == 'e' && "true"[0] == 't' && "false"[0] == 'f' && "null"[0] == 'n';
  }

  lemma {:induction false} EachRoundTrips(values: seq<Value>)
    ensures DecodeEach(EncodeAll(values)) == Some(values)
    ensures |EncodeAll(values)| == |values|
    ensures forall i :: 0 <= i < |values| ==> EncodeAll(values)[i] != "" && '/' !in EncodeAll(values)[i]
  {
    if values != [] {
      SegmentRoundTrips(values[0]);
      EachRoundTrips(values[1..]);
      assert EncodeAll(values)[1..] == EncodeAll(values[1..]);
      assert values == [values[0]] + values[1..];
    }
  }

  // A whole path reads back, the empty one included.
  lemma {:induction false} PathRoundTrips(values: seq<Value>)
    ensures DecodePath(ShardInput(EncodeAll(values))) == Some(values)
  {
    EachRoundTrips(values);
    if values != [] {
      var parts := EncodeAll(values);
      SplitJoin(parts, '/');
      assert Join(parts, '/') != "" by { assert parts[0] != ""; }
    }
  }

  lemma {:induction false} PathsAreInjective(a: seq<Value>, b: seq<Value>)
    requires ShardInput(EncodeAll(a)) == ShardInput(EncodeAll(b))
    ensures a == b
  {
    PathRoundTrips(a);
    PathRoundTrips(b);
  }
}
