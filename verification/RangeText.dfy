/** How slot ranges are written: exactly which texts ParseRange reads as which range. */
module RangeText {
  import opened Wrappers
  import opened Text
  import opened Shard

  /* ---- the grammar ---- */

  const UPPER := "0123456789ABCDEF"
  const LOWER := "0123456789abcdef"

  predicate Digit(c: char, n: nat) {
    n < 16 && (c == UPPER[n] || c == LOWER[n])
  }

  predicate Blank(s: string) {
    forall k :: 0 <= k < |s| ==> IsSpace(s[k])
  }

  // The text with blanks before and after it.
  ghost predicate Padded(s: string, text: string) {
    exists l, r :: Pads(s, l, text, r)
  }

  predicate Pads(s: string, l: string, text: string, r: string) {
    Blank(l) && Blank(r) && s == l + text + r
  }

  // One or two hexadecimal digits of either case.
  predicate Digits(text: string, slot: Slot) {
    || (|text| == 1 && Digit(text[0], slot))
    || (|text| == 2 && Digit(text[0], slot / 16) && Digit(text[1], slot % 16))
  }

  ghost predicate SlotText(s: string, slot: Slot) {
    exists text :: Digits(text, slot) && Padded(s, text)
  }

  // A single slot, or two slots in order with a hyphen between them.
  ghost predicate RangeText(s: string, r: Range) {
    || (r.start == r.end && SlotText(s, r.start))
    || (r.start <= r.end && Pair(s, r))
  }

  ghost predicate Pair(s: string, r: Range) {
    exists a, b :: SlotText(a, r.start) && SlotText(b, r.end) && s == a + "-" + b
  }

  /* ---- trimming ---- */

  lemma {:induction false} TrimLeftBlank(l: string, s: string)
    requires Blank(l)
    ensures TrimLeft(l + s) == TrimLeft(s)
  {
    if l == "" {
      assert l + s == s;
    } else {
      assert (l + s)[1..] == l[1..] + s;
      TrimLeftBlank(l[1..], s);
    }
  }

  lemma {:induction false} TrimEndBlank(s: string, r: string)
    requires Blank(r)
    ensures TrimEnd(s + r) == TrimEnd(s)
  {
    if r == "" {
      assert s + r == s;
    } else {
      assert (s + r)[..|s + r| - 1] == s + r[..|r| - 1];
      TrimEndBlank(s, r[..|r| - 1]);
    }
  }

  lemma {:induction false} TrimLeftRest(s: string) returns (l: string)
    ensures Blank(l) && s == l + TrimLeft(s)
  {
    if s != [] && IsSpace(s[0]) {
      l := TrimLeftRest(s[1..]);
      l := [s[0]] + l;
    } else {
      l := "";
    }
  }

  lemma {:induction false} TrimEndRest(s: string) returns (r: string)
    ensures Blank(r) && s == TrimEnd(s) + r
  {
    if s != [] && IsSpace(s[|s| - 1]) {
      r := TrimEndRest(s[..|s| - 1]);
      r := r + [s[|s| - 1]];
    } else {
      r := "";
    }
  }

  // Trimming takes away the blanks around a text and nothing else.
  lemma {:induction false} TrimIsPadding(s: string, text: string)
    requires Trimmed(text)
    ensures TrimSpace(s) == text <==> Padded(s, text)
  {
    if Padded(s, text) {
      var l, r :| Pads(s, l, text, r);
      assert s == l + (text + r);
      TrimLeftBlank(l, text + r);
      if text == "" {
        assert text + r == r + "";
        TrimLeftBlank(r, "");
      } else {
        assert TrimLeft(text + r) == text + r;
        TrimEndBlank(text, r);
      }
    }
    if TrimSpace(s) == text {
      var l := TrimLeftRest(s);
      var r := TrimEndRest(TrimLeft(s));
      assert Pads(s, l, text, r);
    }
  }

  /* ---- slots ---- */

  lemma {:induction false} HexDigit(c: char, n: nat)
    requires n < 16
    ensures HexValue(c) == Some(n) <==> Digit(c, n)
    ensures Digit(c, n) ==> c != '-' && !IsSpace(c)
  {
  }

  lemma DigitsTrimmed(text: string, slot: Slot)
    requires Digits(text, slot)
    ensures Trimmed(text) && '-' !in text && text != ""
  {
    if |text| == 1 {
      HexDigit(text[0], slot);
    } else {
      HexDigit(text[0], slot / 16);
      HexDigit(text[1], slot % 16);
    }
  }

  lemma {:induction false} ParseSlotExact(s: string, slot: Slot)
    ensures ParseSlot(s) == Some(slot) <==> SlotText(s, slot)
  {
    var text := TrimSpace(s);
    TrimSpaceTrimmed(s);
    TrimIsPadding(s, text);
    assert ParseSlot(s) == Some(slot) <==> Digits(text, slot) by { TwoDigits(s, slot); }
    if SlotText(s, slot) {
      var other :| Digits(other, slot) && Padded(s, other);
      DigitsTrimmed(other, slot);
      TrimIsPadding(s, other);
    }
  }

  lemma TwoDigits(s: string, slot: Slot)
    ensures ParseSlot(s) == Some(slot) <==> Digits(TrimSpace(s), slot)
  {
    var text := TrimSpace(s);
    if |text| == 1 {
      if slot < 16 { HexDigit(text[0], slot); }
    } else if |text| == 2 {
      HexPair(text[0], text[1], slot);
    }
  }

  lemma HexPair(c: char, d: char, slot: Slot)
    ensures (HexValue(c).Some? && HexValue(d).Some? && 16 * HexValue(c).value + HexValue(d).value == slot)
            <==> Digit(c, slot / 16) && Digit(d, slot % 16)
  {
    HexDigit(c, slot / 16);
    HexDigit(d, slot % 16);
    if HexValue(c).Some? && HexValue(d).Some? { TwoPlaces(HexValue(c).value, HexValue(d).value, slot); }
  }

  lemma TwoPlaces(a: nat, b: nat, slot: Slot)
    requires a < 16 && b < 16
    ensures 16 * a + b == slot <==> a == slot / 16 && b == slot % 16
  {
  }

  lemma SlotTextNoHyphen(s: string, slot: Slot)
    requires SlotText(s, slot)
    ensures '-' !in s && TrimSpace(s) != ""
  {
    var text :| Digits(text, slot) && Padded(s, text);
    var l, r :| Pads(s, l, text, r);
    DigitsTrimmed(text, slot);
    TrimIsPadding(s, text);
  }

  // More blanks on either side change nothing.
  lemma SlotTextPadded(l: string, s: string, r: string, slot: Slot)
    requires Blank(l) && Blank(r)
    ensures SlotText(s, slot) <==> SlotText(l + s + r, slot)
  {
    ParseSlotExact(s, slot);
    ParseSlotExact(l + s + r, slot);
    TrimAgain(l, s, r);
  }

  lemma TrimAgain(l: string, s: string, r: string)
    requires Blank(l) && Blank(r)
    ensures TrimSpace(l + s + r) == TrimSpace(s)
  {
    var text := TrimSpace(s);
    TrimSpaceTrimmed(s);
    TrimIsPadding(s, text);
    var l', r' :| Pads(s, l', text, r');
    assert l + s + r == (l + l') + text + (r' + r);
    assert Pads(l + s + r, l + l', text, r' + r);
    TrimIsPadding(l + s + r, text);
  }

  /* ---- ranges ---- */

  lemma {:induction false} OnlyPart(s: string, sep: char)
    ensures sep in s <==> |Split(s, sep)| > 1
    ensures |Split(s, sep)| == 1 ==> Split(s, sep)[0] == s
  {
    if s != [] {
      OnlyPart(s[1..], sep);
      assert s == [s[0]] + s[1..];
    }
  }

  lemma {:induction false} TwoParts(s: string, sep: char)
    requires |Split(s, sep)| == 2
    ensures var parts := Split(s, sep); s == parts[0] + [sep] + parts[1] && sep !in parts[0] && sep !in parts[1]
  {
    var rest := Split(s[1..], sep);
    assert s == [s[0]] + s[1..];
    OnlyPart(s[1..], sep);
    if s[0] != sep {
      TwoParts(s[1..], sep);
    }
  }

  lemma Parsed(s: string, r: Range)
    requires ParseRange(s) == Some(r)
    ensures RangeText(s, r)
  {
    var text := TrimSpace(s);
    TrimSpaceTrimmed(s);
    TrimIsPadding(s, text);
    var l, e :| Pads(s, l, text, e);
    if '-' !in text {
      ParseSlotExact(text, r.start);
      SlotTextPadded(l, text, e, r.start);
    } else {
      var parts := Split(text, '-');
      TwoParts(text, '-');
      ParseSlotExact(parts[0], r.start);
      ParseSlotExact(parts[1], r.end);
      assert s == l + (parts[0] + "-" + parts[1]) + e;
      PairPadded(l, parts[0], parts[1], e, r);
    }
  }

  lemma PairPadded(l: string, a: string, b: string, e: string, r: Range)
    requires Blank(l) && Blank(e) && SlotText(a, r.start) && SlotText(b, r.end)
    ensures Pair(l + (a + "-" + b) + e, r)
  {
    SlotTextPadded(l, a, "", r.start);
    SlotTextPadded("", b, e, r.end);
    assert l + a + "" == l + a && "" + b + e == b + e;
    assert l + (a + "-" + b) + e == (l + a) + "-" + (b + e);
  }

  lemma SingleReads(s: string, slot: Slot)
    requires SlotText(s, slot)
    ensures ParseRange(s) == Some(Range(slot, slot))
  {
    var text := TrimSpace(s);
    SlotTextNoHyphen(s, slot);
    TrimSpaceTrimmed(s);
    TrimIsPadding(s, text);
    var l, e :| Pads(s, l, text, e);
    SlotTextPadded(l, text, e, slot);
    ParseSlotExact(text, slot);
    SlotTextNoHyphen(text, slot);
  }

  lemma PairReads(a: string, b: string, r: Range)
    requires SlotText(a, r.start) && SlotText(b, r.end) && r.start <= r.end
    ensures ParseRange(a + "-" + b) == Some(r)
  {
    var x, y := TrimLeft(a), TrimEnd(b);
    var l := TrimLeftRest(a);
    var e := TrimEndRest(b);
    assert a == l + x + "" && b == "" + y + e;
    SlotTextPadded(l, x, "", r.start);
    SlotTextPadded("", y, e, r.end);
    SidesTrimmed(a, b, x, y, l, e) by { SlotTextNoHyphen(a, r.start); SlotTextNoHyphen(b, r.end); }
    TrimmedPairReads(a + "-" + b, x, y, r);
  }

  lemma TrimmedPairReads(s: string, x: string, y: string, r: Range)
    requires TrimSpace(s) == x + "-" + y && SlotText(x, r.start) && SlotText(y, r.end) && r.start <= r.end
    ensures ParseRange(s) == Some(r)
  {
    SlotTextNoHyphen(x, r.start);
    SlotTextNoHyphen(y, r.end);
    SplitFirst(x, '-', y);
    SplitFirst(y, '-', "");
    ParseSlotExact(x, r.start);
    ParseSlotExact(y, r.end);
    assert (x + "-" + y)[|x|] == '-';
  }

  lemma SidesTrimmed(a: string, b: string, x: string, y: string, l: string, e: string)
    requires Blank(l) && Blank(e) && a == l + x && b == y + e && x == TrimLeft(a) && y == TrimEnd(b)
    ensures TrimSpace(a + "-" + b) == x + "-" + y
  {
    TrimLeftSuffix(a);
    TrimEndPrefix(b);
    HyphenTrimmed(x, y);
    Regrouped(l, x, y, e);
    TrimIsPadding(a + "-" + b, x + "-" + y);
  }

  lemma HyphenTrimmed(x: string, y: string)
    requires (x == [] || !IsSpace(x[0])) && (y == [] || !IsSpace(y[|y| - 1]))
    ensures Trimmed(x + "-" + y)
  {
    var text := x + "-" + y;
    assert text[0] == if x == [] then '-' else x[0];
    assert text[|text| - 1] == if y == [] then '-' else y[|y| - 1];
  }

  lemma Regrouped(l: string, x: string, y: string, e: string)
    requires Blank(l) && Blank(e)
    ensures Padded((l + x) + "-" + (y + e), x + "-" + y)
  {
    assert (l + x) + "-" + (y + e) == l + (x + "-" + y) + e;
    assert Pads((l + x) + "-" + (y + e), l, x + "-" + y, e);
  }

  // ParseRange reads exactly the texts of a range as that range.
  lemma {:induction false} ParseRangeExact(s: string, r: Range)
    ensures ParseRange(s) == Some(r) <==> RangeText(s, r)
  {
    if ParseRange(s) == Some(r) { Parsed(s, r); }
    if r.start == r.end && SlotText(s, r.start) { SingleReads(s, r.start); }
    if r.start <= r.end && Pair(s, r) {
      var a, b :| SlotText(a, r.start) && SlotText(b, r.end) && s == a + "-" + b;
      PairReads(a, b, r);
    }
  }

  /* ---- the usual spelling ---- */

  function WriteSlot(slot: Slot): string {
    [UPPER[slot / 16], UPPER[slot % 16]]
  }

  function Write(r: Range): string {
    WriteSlot(r.start) + "-" + WriteSlot(r.end)
  }

  lemma {:induction false} WriteReads(r: Range)
    requires r.start <= r.end
    ensures ParseRange(Write(r)) == Some(r)
  {
    WriteSlotReads(r.start);
    WriteSlotReads(r.end);
    PairReads(WriteSlot(r.start), WriteSlot(r.end), r);
  }

  lemma WriteSlotReads(slot: Slot)
    ensures SlotText(WriteSlot(slot), slot)
  {
    var text := WriteSlot(slot);
    assert Digits(text, slot);
    assert Padded(text, text) by { assert Pads(text, "", text, ""); }
  }
}
