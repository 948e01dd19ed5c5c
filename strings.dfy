/**
 * String helpers that the TypeScript sources get from the JavaScript runtime:
 * `Array.prototype.join`, `String.prototype.trim`, regular-expression
 * stripping of a repeated character, number-to-decimal conversion, ASCII
 * case-insensitive comparison (the `i` regex flag) and left-to-right search.
 */
module Strings {
  import opened Wrappers

  // ---------------------------------------------------------------------------
  // Search

  /** Index of the first occurrence of c in s at or after from (`s.indexOf(c, from)`). */
  function IndexOfFrom(s: string, c: char, from: nat): (r: Option<nat>)
    ensures r.Some? ==> from <= r.value < |s| && s[r.value] == c
    ensures r.Some? ==> forall k :: from <= k < r.value ==> s[k] != c
    ensures r.None? ==> forall k :: from <= k < |s| ==> s[k] != c
    decreases |s| - from
  {
    if from >= |s| then None
    else if s[from] == c then Some(from)
    else IndexOfFrom(s, c, from + 1)
  }

  // ---------------------------------------------------------------------------
  // Join and split

  /** `parts.join(sep)`. */
  function Join(parts: seq<string>, sep: string): string
  {
    if |parts| == 0 then ""
    else if |parts| == 1 then parts[0]
    else parts[0] + sep + Join(parts[1..], sep)
  }

  /** Joining two non-empty lists is joining each and putting the separator between. */
  lemma {:induction false} JoinAppend(a: seq<string>, b: seq<string>, sep: string)
    requires |a| >= 1 && |b| >= 1
    ensures Join(a + b, sep) == Join(a, sep) + sep + Join(b, sep)
    decreases |a|
  {
    if |a| == 1 {
      assert (a + b)[1..] == b;
    } else {
      assert (a + b)[1..] == a[1..] + b;
      JoinAppend(a[1..], b, sep);
    }
  }

  /** Joining a list whose one element is itself a join flattens the nesting. */
  lemma JoinFlatten(a: seq<string>, inner: seq<string>, c: seq<string>, sep: string)
    requires |a| >= 1 && |inner| >= 1 && |c| >= 1
    ensures Join(a + [Join(inner, sep)] + c, sep) == Join(a + inner + c, sep)
  {
    var j := Join(inner, sep);
    var tail := [j] + c;
    var flat := inner + c;
    assert a + [j] + c == a + tail;
    assert a + inner + c == a + flat;
    JoinAppend(a, tail, sep);
    JoinAppend([j], c, sep);
    assert Join([j], sep) == j;
    JoinAppend(inner, c, sep);
    JoinAppend(a, flat, sep);
  }

  /** A join holds a character only if a part or the separator does. */
  lemma {:induction false} JoinAvoids(parts: seq<string>, sep: string, c: char)
    requires c !in sep
    requires forall p :: p in parts ==> c !in p
    ensures c !in Join(parts, sep)
    decreases |parts|
  {
    if |parts| > 1 {
      assert parts[0] in parts;
      forall p | p in parts[1..] ensures c !in p {
        assert p in parts;
      }
      JoinAvoids(parts[1..], sep, c);
    } else if |parts| == 1 {
      assert parts[0] in parts;
    }
  }

  /** `s.split(c)` for a one-character separator. */
  function Split(s: string, c: char): (r: seq<string>)
    ensures |r| >= 1
    decreases |s|
  {
    match IndexOfFrom(s, c, 0)
    case None => [s]
    case Some(i) => [s[..i]] + Split(s[i + 1..], c)
  }

  /** Splitting a join at its separator gives back the parts when no part holds the separator. */
  lemma {:induction false} SplitJoin(parts: seq<string>, c: char)
    requires |parts| >= 1
    requires forall p :: p in parts ==> c !in p
    ensures Split(Join(parts, [c]), c) == parts
    decreases |parts|
  {
    var s := Join(parts, [c]);
    if |parts| == 1 {
      assert s == parts[0];
      assert c !in parts[0];
      assert IndexOfFrom(s, c, 0).None?;
    } else {
      var rest := Join(parts[1..], [c]);
      assert s == parts[0] + [c] + rest;
      var i := |parts[0]|;
      assert c !in parts[0];
      forall k | 0 <= k < i ensures s[k] != c {
        assert s[k] == parts[0][k];
      }
      assert s[i] == c;
      assert IndexOfFrom(s, c, 0) == Some(i);
      assert s[..i] == parts[0];
      assert s[i + 1..] == rest;
      forall p | p in parts[1..] ensures c !in p {
        assert p in parts;
      }
      SplitJoin(parts[1..], c);
      assert parts == [parts[0]] + parts[1..];
    }
  }

  // ---------------------------------------------------------------------------
  // Stripping a class of characters from either end

  /** Removes every leading character for which drop holds. */
  function DropLeading(s: string, drop: char -> bool): (r: string)
    ensures |r| <= |s| && r == s[|s| - |r|..]
    ensures forall k :: 0 <= k < |s| - |r| ==> drop(s[k])
    ensures r == [] || !drop(r[0])
  {
    if s != [] && drop(s[0]) then DropLeading(s[1..], drop) else s
  }

  /** Removes every trailing character for which drop holds. */
  function DropTrailing(s: string, drop: char -> bool): (r: string)
    ensures |r| <= |s| && r == s[..|r|]
    ensures forall k :: |r| <= k < |s| ==> drop(s[k])
    ensures r == [] || !drop(r[|r| - 1])
  {
    if s != [] && drop(s[|s| - 1]) then DropTrailing(s[..|s| - 1], drop) else s
  }

  /** Removes the leading and the trailing run of characters for which drop holds. */
  function Strip(s: string, drop: char -> bool): (r: string)
  {
    DropTrailing(DropLeading(s, drop), drop)
  }

  /**
   * The stripped string is the slice of s between a dropped prefix and a dropped
   * suffix.
   */
  lemma StripIsInnerSlice(s: string, drop: char -> bool) returns (i: nat, j: nat)
    ensures i <= j <= |s| && Strip(s, drop) == s[i..j]
    ensures forall k :: 0 <= k < i ==> drop(s[k])
    ensures forall k :: j <= k < |s| ==> drop(s[k])
  {
    var a := DropLeading(s, drop);
    var r := DropTrailing(a, drop);
    i := |s| - |a|;
    j := i + |r|;
    KeptSlice(s, a, r, i);
    DroppedSuffix(s, a, r, i, drop);
  }

  /** A prefix r of the suffix a == s[i..] is the slice s[i..i + |r|]. */
  lemma KeptSlice(s: string, a: string, r: string, i: nat)
    requires i <= |s| && a == s[i..] && |r| <= |a| && r == a[..|r|]
    ensures r == s[i..i + |r|]
  {
    forall k | 0 <= k < |r| ensures r[k] == s[i + k] {
      assert r[k] == a[k];
    }
  }

  /** The characters after a kept slice s[i..i + |r|] are the dropped tail of a == s[i..]. */
  lemma DroppedSuffix(s: string, a: string, r: string, i: nat, drop: char -> bool)
    requires i <= |s| && a == s[i..] && |r| <= |a|
    requires forall k :: |r| <= k < |a| ==> drop(a[k])
    ensures forall k :: i + |r| <= k < |s| ==> drop(s[k])
  {
    forall k | i + |r| <= k < |s| ensures drop(s[k]) {
      assert s[k] == a[k - i];
    }
  }

  /** The stripped string neither starts nor ends with a dropped character. */
  lemma StripEnds(s: string, drop: char -> bool)
    ensures var r := Strip(s, drop); r == [] || (!drop(r[0]) && !drop(r[|r| - 1]))
  {
    var a := DropLeading(s, drop);
    var r := DropTrailing(a, drop);
    if r != [] {
      assert r[0] == a[0];
    }
  }

  /** Stripping twice strips nothing more. */
  lemma StripIdempotent(s: string, drop: char -> bool)
    ensures Strip(Strip(s, drop), drop) == Strip(s, drop)
  {
    var r := Strip(s, drop);
    StripEnds(s, drop);
    assert DropLeading(r, drop) == r;
    assert DropTrailing(r, drop) == r;
  }

  /** A truthy string: present and non-empty. */
  predicate Truthy(s: Option<string>)
  {
    s.Some? && s.value != ""
  }

  // ---------------------------------------------------------------------------
  // trim()

  /** The code points `String.prototype.trim` removes: WhiteSpace and LineTerminator. */
  predicate IsJsWhitespace(c: char)
  {
    c == '\t' || c == '\n' || c == '\U{B}' || c == '\U{C}' || c == '\r' || c == ' '
    || c == '\U{A0}' || c == '\U{1680}' || ('\U{2000}' <= c <= '\U{200A}')
    || c == '\U{2028}' || c == '\U{2029}' || c == '\U{202F}' || c == '\U{205F}'
    || c == '\U{3000}' || c == '\U{FEFF}'
  }

  /** `s.trim()`. */
  function Trim(s: string): string
  {
    Strip(s, IsJsWhitespace)
  }

  // ---------------------------------------------------------------------------
  // Numbers

  function DigitChar(d: nat): (c: char)
    requires d < 10
    ensures '0' <= c <= '9'
  {
    "0123456789"[d]
  }

  /** The decimal text of a non-negative integer, as `String(n)` writes it. */
  function NatToString(n: nat): (r: string)
    ensures |r| >= 1
    ensures forall k :: 0 <= k < |r| ==> '0' <= r[k] <= '9'
  {
    if n < 10 then [DigitChar(n)] else NatToString(n / 10) + [DigitChar(n % 10)]
  }

  /** The decimal text of an integer, with a leading `-` when negative. */
  function IntToString(n: int): string
  {
    if n < 0 then "-" + NatToString(-n) else NatToString(n)
  }

  /** Only digits and a minus sign appear in a written integer. */
  lemma IntToStringChars(n: int, c: char)
    requires c != '-' && !('0' <= c <= '9')
    ensures c !in IntToString(n)
  {
    var s := IntToString(n);
    forall k | 0 <= k < |s| ensures s[k] != c {
      if n < 0 && k > 0 {
        assert s[k] == NatToString(-n)[k - 1];
      }
    }
  }

  // ---------------------------------------------------------------------------
  // ASCII case-insensitive matching (the `i` flag of a regular expression whose
  // pattern is ASCII; JavaScript does not fold a non-ASCII character onto an
  // ASCII one, so ASCII folding is exact for such patterns)

  function AsciiLower(c: char): char
  {
    if 'A' <= c <= 'Z' then (c as int + 32) as char else c
  }

  /** s holds pat at position i, ignoring ASCII letter case. */
  predicate CiPrefixAt(s: string, i: nat, pat: string)
  {
    i + |pat| <= |s| && forall k :: 0 <= k < |pat| ==> AsciiLower(s[i + k]) == AsciiLower(pat[k])
  }

  /** No position in [lo, hi) of s holds c. */
  predicate NoCharIn(s: string, lo: nat, hi: nat, c: char)
  {
    forall k :: lo <= k < hi && k < |s| ==> s[k] != c
  }
}
