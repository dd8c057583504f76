/** The string operations the client uses, on sequences of Unicode characters. */
module Text {

  // unicode.IsSpace
  predicate IsSpace(c: char) {
    || c in {'\t', '\n', '\U{000B}', '\U{000C}', '\r', ' ', '\U{0085}', '\U{00A0}', '\U{1680}'}
    || '\U{2000}' <= c <= '\U{200A}'
    || c in {'\U{2028}', '\U{2029}', '\U{202F}', '\U{205F}', '\U{3000}'}
  }

  function TrimLeft(s: string): string {
    if s != [] && IsSpace(s[0]) then TrimLeft(s[1..]) else s
  }

  function TrimEnd(s: string): string {
    if s != [] && IsSpace(s[|s| - 1]) then TrimEnd(s[..|s| - 1]) else s
  }

  // strings.TrimSpace
  function TrimSpace(s: string): string {
    TrimEnd(TrimLeft(s))
  }

  // strings.TrimRight with a one-character cutset
  function TrimRight(s: string, c: char): string {
    if s != [] && s[|s| - 1] == c then TrimRight(s[..|s| - 1], c) else s
  }

  lemma {:induction false} TrimRightPrefix(s: string, c: char)
    ensures var t := TrimRight(s, c); t <= s && (t == [] || t[|t| - 1] != c)
    ensures forall k :: |TrimRight(s, c)| <= k < |s| ==> s[k] == c
  {
    if s != [] && s[|s| - 1] == c { TrimRightPrefix(s[..|s| - 1], c); }
  }

  predicate Trimmed(s: string) {
    s == [] || (!IsSpace(s[0]) && !IsSpace(s[|s| - 1]))
  }

  lemma {:induction false} TrimLeftSuffix(s: string)
    ensures var t := TrimLeft(s); |t| <= |s| && s[|s| - |t|..] == t && (t == [] || !IsSpace(t[0]))
  {
    if s != [] && IsSpace(s[0]) { TrimLeftSuffix(s[1..]); }
  }

  lemma {:induction false} TrimEndPrefix(s: string)
    ensures var t := TrimEnd(s); t <= s && (t == [] || !IsSpace(t[|t| - 1]))
  {
    if s != [] && IsSpace(s[|s| - 1]) { TrimEndPrefix(s[..|s| - 1]); }
  }

  // TrimSpace yields a trimmed string and leaves a trimmed string alone.
  lemma {:induction false} TrimSpaceTrimmed(s: string)
    ensures Trimmed(TrimSpace(s)) && (Trimmed(s) ==> TrimSpace(s) == s)
  {
    TrimLeftSuffix(s);
    TrimEndPrefix(TrimLeft(s));
  }

  // strings.Split with a one-character separator
  function Split(s: string, sep: char): (parts: seq<string>)
    ensures |parts| > 0
  {
    if s == [] then [[]]
    else if s[0] == sep then [[]] + Split(s[1..], sep)
    else var rest := Split(s[1..], sep); [[s[0]] + rest[0]] + rest[1..]
  }

  // strings.Join with a one-character separator
  function Join(parts: seq<string>, sep: char): string {
    if parts == [] then []
    else if |parts| == 1 then parts[0]
    else parts[0] + [sep] + Join(parts[1..], sep)
  }

  // A first part without the separator is split off unchanged.
  lemma {:induction false} SplitFirst(a: string, sep: char, rest: string)
    requires sep !in a
    ensures Split(a, sep) == [a]
    ensures Split(a + [sep] + rest, sep) == [a] + Split(rest, sep)
  {
    if a == [] {
      assert ([] + [sep] + rest)[1..] == rest;
    } else {
      SplitFirst(a[1..], sep, rest);
      assert (a + [sep] + rest)[1..] == a[1..] + [sep] + rest;
      assert [a[0]] + a[1..] == a;
    }
  }

  lemma {:induction false} SplitJoin(parts: seq<string>, sep: char)
    requires parts != [] && forall i :: 0 <= i < |parts| ==> sep !in parts[i]
    ensures Split(Join(parts, sep), sep) == parts
  {
    if |parts| == 1 {
      SplitFirst(parts[0], sep, []);
    } else {
      var rest := parts[1..];
      forall i | 0 <= i < |rest| ensures sep !in rest[i] { assert rest[i] == parts[i + 1]; }
      SplitJoin(rest, sep);
      SplitFirst(parts[0], sep, Join(rest, sep));
      assert [parts[0]] + rest == parts;
    }
  }
}
