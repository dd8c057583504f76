/** Slots, slot ranges and the coverage check (shard/shard.go). */
module Shard {
  import opened Wrappers
  import opened Text

  type Slot = x: int | 0 <= x < 256

  // An inclusive range; end < start denotes no slot at all.
  datatype Range = Range(start: Slot, end: Slot)

  predicate Contains(r: Range, slot: int) {
    r.start <= slot <= r.end
  }

  /* ---- document slots ---- */

  // The least index >= i of a period at or after rune position 6, or |id|.
  function PrefixLength(id: string, i: nat): (n: nat)
    requires i <= |id|
    ensures i <= n <= |id|
    ensures n < |id| ==> n >= 6 && id[n] == '.'
    ensures forall k :: i <= k < n && k >= 6 ==> id[k] != '.'
    decreases |id| - i
  {
    if i == |id| then i
    else if id[i] == '.' && i >= 6 then i
    else PrefixLength(id, i + 1)
  }

  function ShardingPrefix(id: string): string {
    id[..PrefixLength(id, 0)]
  }

  // crc is the CRC-32 of the UTF-8 form of a string; its value is not modelled.
  function DocumentSlot(crc: string -> nat, id: string): Slot {
    crc(ShardingPrefix(id)) % 256
  }

  // The prefix is what precedes the first period from position 6 on, or the id.
  lemma {:induction false} PrefixExact(id: string, n: nat)
    requires n <= |id|
    ensures ShardingPrefix(id) == id[..n]
            <==> && (forall k :: 6 <= k < n ==> id[k] != '.')
                 && (n == |id| || (n >= 6 && id[n] == '.'))
  {
    var m := PrefixLength(id, 0);
    assert |id[..n]| == n && |id[..m]| == m;
  }

  // The slot is the low byte of the sum of the prefix.
  lemma {:induction false} SlotIsLowByte(crc: string -> nat, id: string) returns (high: nat)
    ensures crc(ShardingPrefix(id)) == 256 * high + DocumentSlot(crc, id)
  {
    high := crc(ShardingPrefix(id)) / 256;
  }

  lemma {:induction false} PrefixIdempotent(id: string)
    ensures ShardingPrefix(ShardingPrefix(id)) == ShardingPrefix(id)
  {
    var n := PrefixLength(id, 0);
    assert forall k :: 6 <= k < n ==> id[..n][k] != '.';
  }

  // Only the prefix counts: whatever follows a qualifying period is ignored.
  lemma {:induction false} PrefixIgnoresTail(id: string, tail: string)
    requires |ShardingPrefix(id)| >= 6
    ensures ShardingPrefix(ShardingPrefix(id) + "." + tail) == ShardingPrefix(id)
  {
    var p := ShardingPrefix(id);
    var longer := p + "." + tail;
    assert longer[|p|] == '.';
    assert forall k :: 6 <= k < |p| ==> longer[k] == p[k] == id[k] != '.';
    assert PrefixLength(longer, 0) == |p|;
    assert longer[..|p|] == p;
  }

  /* ---- writing ranges down ---- */

  function HexValue(c: char): (h: Option<nat>)
    ensures h.Some? ==> h.value < 16
  {
    if '0' <= c <= '9' then Some(c as int - '0' as int)
    else if 'a' <= c <= 'f' then Some(c as int - 'a' as int + 10)
    else if 'A' <= c <= 'F' then Some(c as int - 'A' as int + 10)
    else None
  }

  function ParseSlot(raw: string): Option<Slot> {
    var s := TrimSpace(raw);
    if |s| == 0 || |s| > 2 then None
    else if |s| == 1 then
      (match HexValue(s[0])
       case Some(a) => Some(a)
       case None => None)
    else
      match (HexValue(s[0]), HexValue(s[1]))
      case (Some(a), Some(b)) => Some(16 * a + b)
      case _ => None
  }

  function ParseRange(raw: string): Option<Range> {
    var s := TrimSpace(raw);
    if s == "" then None
    else if '-' !in s then
      (match ParseSlot(s) case Some(x) => Some(Range(x, x)) case None => None)
    else
      var parts := Split(s, '-');
      if |parts| != 2 then None
      else
        match (ParseSlot(parts[0]), ParseSlot(parts[1]))
        case (Some(a), Some(b)) => if a > b then None else Some(Range(a, b))
        case _ => None
  }

  /* ---- the coverage check ---- */

  datatype Coverage = Full | Overlapping(slot: Slot) | Missing(slot: Slot)

  ghost predicate Covered(ranges: seq<Range>, slot: int) {
    exists i :: 0 <= i < |ranges| && Contains(ranges[i], slot)
  }

  ghost predicate Clash(ranges: seq<Range>) {
    exists i, j, slot :: 0 <= i < j < |ranges| && Contains(ranges[i], slot) && Contains(ranges[j], slot)
  }

  // The first range that meets an earlier one, and where they first meet.
  ghost predicate FirstClash(ranges: seq<Range>, n: nat, slot: int)
    requires n < |ranges|
  {
    && !Clash(ranges[..n])
    && Contains(ranges[n], slot) && Covered(ranges[..n], slot)
    && forall x :: ranges[n].start <= x < slot ==> !Covered(ranges[..n], x)
  }

  ghost predicate Exact(ranges: seq<Range>) {
    !Clash(ranges) && forall slot :: 0 <= slot < 256 ==> Covered(ranges, slot)
  }

  method ValidateFullCoverage(ranges: seq<Range>) returns (c: Coverage)
    ensures c.Full? <==> Exact(ranges)
    ensures c.Overlapping? <==> Clash(ranges)
    ensures c.Overlapping? ==> exists n :: 0 <= n < |ranges| && FirstClash(ranges, n, c.slot)
    ensures c.Missing? ==> !Covered(ranges, c.slot) && forall x :: 0 <= x < c.slot ==> Covered(ranges, x)
  {
    var covered := new bool[256](_ => false);
    for n := 0 to |ranges|
      invariant forall x :: 0 <= x < 256 ==> (covered[x] <==> Covered(ranges[..n], x))
      invariant !Clash(ranges[..n])
    {
      var r := ranges[n];
      var i: int := r.start;
      while i <= r.end
        invariant r.start <= i && (i <= r.end + 1 || i == r.start)
        invariant forall x :: 0 <= x < 256 ==> (covered[x] <==> Covered(ranges[..n], x) || r.start <= x < i)
        invariant forall x :: r.start <= x < i ==> !Covered(ranges[..n], x)
      {
        if covered[i] {
          ClashFound(ranges, n, i);
          assert FirstClash(ranges, n, i);
          return Overlapping(i);
        }
        covered[i] := true;
        i := i + 1;
      }
      CoveredOneMore(ranges, n);
    }
    assert ranges[..|ranges|] == ranges;
    for i := 0 to 256
      invariant forall x :: 0 <= x < i ==> Covered(ranges, x)
    {
      if !covered[i] { return Missing(i); }
    }
    return Full;
  }

  lemma ClashFound(ranges: seq<Range>, n: nat, slot: int)
    requires n < |ranges| && Covered(ranges[..n], slot) && Contains(ranges[n], slot)
    ensures Clash(ranges)
  {
    var i :| 0 <= i < n && Contains(ranges[..n][i], slot);
    assert Contains(ranges[i], slot);
  }

  lemma CoveredOneMore(ranges: seq<Range>, n: nat)
    requires n < |ranges|
    ensures forall x :: Covered(ranges[..n + 1], x) <==> Covered(ranges[..n], x) || Contains(ranges[n], x)
    ensures Clash(ranges[..n + 1]) ==>
              Clash(ranges[..n]) || exists x :: Contains(ranges[n], x) && Covered(ranges[..n], x)
  {
    var a, b := ranges[..n], ranges[..n + 1];
    forall x ensures Covered(b, x) <==> Covered(a, x) || Contains(ranges[n], x) {
      if Covered(a, x) {
        var i :| 0 <= i < n && Contains(a[i], x);
        assert Contains(b[i], x);
      }
      if Contains(ranges[n], x) { assert Contains(b[n], x); }
      if Covered(b, x) {
        var i :| 0 <= i < |b| && Contains(b[i], x);
        assert i < n ==> Contains(a[i], x);
      }
    }
    if Clash(b) {
      var i, j, slot :| 0 <= i < j < |b| && Contains(b[i], slot) && Contains(b[j], slot);
      assert Contains(a[i], slot);
      if j < n { assert Contains(a[j], slot); }
    }
  }

  /* ---- the structural reading of full coverage ---- */

  function NonEmpty(ranges: seq<Range>): seq<Range> {
    if ranges == [] then []
    else (if ranges[0].start <= ranges[0].end then [ranges[0]] else []) + NonEmpty(ranges[1..])
  }

  function Insert(r: Range, sorted: seq<Range>): seq<Range> {
    if sorted == [] || r.start <= sorted[0].start then [r] + sorted
    else [sorted[0]] + Insert(r, sorted[1..])
  }

  function SortByStart(ranges: seq<Range>): seq<Range> {
    if ranges == [] then [] else Insert(ranges[0], SortByStart(ranges[1..]))
  }

  // Each range begins one past the end of the one before; the last ends at FF.
  predicate Chain(ranges: seq<Range>, from: int) {
    if ranges == [] then from == 256
    else ranges[0].start == from && Chain(ranges[1..], ranges[0].end + 1)
  }

  ghost function Hits(ranges: seq<Range>, slot: int): nat {
    if ranges == [] then 0 else (if Contains(ranges[0], slot) then 1 else 0) + Hits(ranges[1..], slot)
  }

  // Every slot from `from` on is hit exactly once.
  ghost predicate Once(ranges: seq<Range>, from: int) {
    forall slot :: from <= slot < 256 ==> Hits(ranges, slot) == 1
  }

  ghost predicate Ordered(ranges: seq<Range>, from: int) {
    && (forall i :: 0 <= i < |ranges| ==> from <= ranges[i].start <= ranges[i].end)
    && forall i, j :: 0 <= i < j < |ranges| ==> ranges[i].start <= ranges[j].start
  }

  lemma {:induction false} HitsPositive(ranges: seq<Range>, slot: int)
    ensures Hits(ranges, slot) > 0 <==> Covered(ranges, slot)
  {
    if ranges != [] {
      HitsPositive(ranges[1..], slot);
      if Covered(ranges[1..], slot) {
        var i :| 0 <= i < |ranges| - 1 && Contains(ranges[1..][i], slot);
        assert Contains(ranges[i + 1], slot);
      }
      if Covered(ranges, slot) && !Contains(ranges[0], slot) {
        var i :| 0 <= i < |ranges| && Contains(ranges[i], slot);
        assert Contains(ranges[1..][i - 1], slot);
      }
    }
  }

  lemma {:induction false} HitsTwice(ranges: seq<Range>, slot: int)
    ensures Hits(ranges, slot) > 1 <==>
            exists i, j :: 0 <= i < j < |ranges| && Contains(ranges[i], slot) && Contains(ranges[j], slot)
  {
    if ranges != [] {
      var t := ranges[1..];
      HitsTwice(t, slot);
      HitsPositive(t, slot);
      if Hits(t, slot) > 1 {
        var i, j :| 0 <= i < j < |t| && Contains(t[i], slot) && Contains(t[j], slot);
        assert Contains(ranges[i + 1], slot) && Contains(ranges[j + 1], slot);
      } else if Contains(ranges[0], slot) && Hits(t, slot) > 0 {
        var j :| 0 <= j < |t| && Contains(t[j], slot);
        assert Contains(ranges[0], slot) && Contains(ranges[j + 1], slot);
      }
      if i, j :| 0 <= i < j < |ranges| && Contains(ranges[i], slot) && Contains(ranges[j], slot) {
        assert Contains(t[j - 1], slot);
        assert i > 0 ==> Contains(t[i - 1], slot);
      }
    }
  }

  lemma {:induction false} InsertHits(r: Range, sorted: seq<Range>, slot: int)
    ensures Hits(Insert(r, sorted), slot) == Hits([r] + sorted, slot)
  {
    assert ([r] + sorted)[1..] == sorted;
    if sorted != [] && r.start > sorted[0].start {
      InsertHits(r, sorted[1..], slot);
      assert ([r] + sorted[1..])[1..] == sorted[1..];
    }
  }

  lemma {:induction false} InsertOrdered(r: Range, sorted: seq<Range>)
    requires Ordered(sorted, 0) && r.start <= r.end
    ensures Ordered(Insert(r, sorted), 0)
    ensures forall x :: x in Insert(r, sorted) ==> x == r || x in sorted
  {
    if sorted != [] && r.start > sorted[0].start {
      var t := Insert(r, sorted[1..]);
      InsertOrdered(r, sorted[1..]);
      forall k | 0 <= k < |t| ensures sorted[0].start <= t[k].start {
        assert t[k] in t;
      }
    }
  }

  lemma {:induction false} SortOrdered(ranges: seq<Range>)
    requires forall i :: 0 <= i < |ranges| ==> ranges[i].start <= ranges[i].end
    ensures Ordered(SortByStart(ranges), 0)
  {
    if ranges != [] {
      SortOrdered(ranges[1..]);
      InsertOrdered(ranges[0], SortByStart(ranges[1..]));
    }
  }

  lemma {:induction false} SortHits(ranges: seq<Range>, slot: int)
    ensures Hits(SortByStart(ranges), slot) == Hits(ranges, slot)
  {
    if ranges != [] {
      SortHits(ranges[1..], slot);
      var t := SortByStart(ranges[1..]);
      InsertHits(ranges[0], t, slot);
      assert ([ranges[0]] + t)[1..] == t;
    }
  }

  lemma {:induction false} NonEmptyHits(ranges: seq<Range>, slot: int)
    ensures Hits(NonEmpty(ranges), slot) == Hits(ranges, slot)
    ensures forall i :: 0 <= i < |NonEmpty(ranges)| ==> NonEmpty(ranges)[i].start <= NonEmpty(ranges)[i].end
  {
    if ranges != [] {
      NonEmptyHits(ranges[1..], slot);
      var t := NonEmpty(ranges[1..]);
      assert ([ranges[0]] + t)[1..] == t;
      assert [] + t == t;
    }
  }

  // In an ordered list, hitting every slot from `from` on exactly once is
  // the same as being a chain.
  lemma {:induction false} ChainHits(s: seq<Range>, from: int)
    requires 0 <= from <= 256 && Ordered(s, from)
    ensures Chain(s, from) <==> Once(s, from)
  {
    if s == [] {
      assert from < 256 ==> Hits(s, from) == 0;
    } else {
      var t, next := s[1..], s[0].end + 1;
      if Chain(s, from) {
        ChainStarts(t, next);
        ChainHits(t, next);
        forall slot | from <= slot < 256 ensures Hits(s, slot) == 1 {
          assert Hits(s, slot) == (if Contains(s[0], slot) then 1 else 0) + Hits(t, slot);
          if slot < next { NoHitBelow(t, next, slot); }
        }
      }
      if Once(s, from) {
        assert Hits(s, from) == 1;
        HitsPositive(s, from);
        var i :| 0 <= i < |s| && Contains(s[i], from);
        assert s[0].start == from;
        forall k | 0 <= k < |t| ensures next <= t[k].start {
          if t[k].start < next {
            assert Hits(s, t[k].start) == 1;
            HitsPositive(t, t[k].start);
            assert Contains(t[k], t[k].start);
          }
        }
        forall slot | next <= slot < 256 ensures Hits(t, slot) == 1 {
          assert Hits(s, slot) == 1;
          assert Hits(s, slot) == (if Contains(s[0], slot) then 1 else 0) + Hits(t, slot);
        }
        ChainHits(t, next);
      }
    }
  }

  lemma {:induction false} ChainStarts(s: seq<Range>, from: int)
    requires Chain(s, from) && forall i :: 0 <= i < |s| ==> s[i].start <= s[i].end
    ensures forall i :: 0 <= i < |s| ==> from <= s[i].start
  {
    if s != [] {
      ChainStarts(s[1..], s[0].end + 1);
      forall i | 0 < i < |s| ensures from <= s[i].start { assert s[i] == s[1..][i - 1]; }
    }
  }

  lemma {:induction false} NoHitBelow(s: seq<Range>, from: int, slot: int)
    requires slot < from && forall i :: 0 <= i < |s| ==> from <= s[i].start
    ensures Hits(s, slot) == 0
  {
    if s != [] { NoHitBelow(s[1..], from, slot); }
  }

  lemma {:induction false} ExactHits(ranges: seq<Range>)
    ensures Exact(ranges) <==> Once(ranges, 0)
  {
    forall slot ensures Hits(ranges, slot) > 0 <==> Covered(ranges, slot) { HitsPositive(ranges, slot); }
    if Exact(ranges) {
      forall slot | 0 <= slot < 256 ensures Hits(ranges, slot) == 1 { HitsTwice(ranges, slot); }
    }
    if Clash(ranges) {
      var i, j, slot :| 0 <= i < j < |ranges| && Contains(ranges[i], slot) && Contains(ranges[j], slot);
      HitsTwice(ranges, slot);
      assert 0 <= slot < 256 && Hits(ranges, slot) != 1;
    }
    if Once(ranges, 0) {
      forall slot | 0 <= slot < 256 ensures Covered(ranges, slot) { assert Hits(ranges, slot) == 1; }
    }
  }

  // What the bitmap accepts, said without a bitmap.
  lemma {:induction false} ExactIsChain(ranges: seq<Range>)
    ensures Exact(ranges) <==> Chain(SortByStart(NonEmpty(ranges)), 0)
  {
    var s := SortByStart(NonEmpty(ranges));
    forall slot ensures Hits(s, slot) == Hits(ranges, slot) {
      NonEmptyHits(ranges, slot);
      SortHits(NonEmpty(ranges), slot);
    }
    if Once(s, 0) {
      forall slot | 0 <= slot < 256 ensures Hits(ranges, slot) == 1 { assert Hits(s, slot) == 1; }
    }
    if Once(ranges, 0) {
      forall slot | 0 <= slot < 256 ensures Hits(s, slot) == 1 { assert Hits(ranges, slot) == 1; }
    }
    NonEmptyHits(ranges, 0);
    SortOrdered(NonEmpty(ranges));
    ChainHits(s, 0);
    ExactHits(ranges);
  }
}
