// String operations of the JavaScript library that the sources build on.
// A string is a sequence of characters; UTF-16 code units are not modelled.

module Text {
  import opened Support

  // ------------------------------------------------------------------ decimal

  function Digit(d: nat): char
    requires d < 10
  {
    (48 + d) as char
  }

  /** `String(n)` for a non-negative integer. */
  function Decimal(n: nat): (s: string)
    ensures s != []
    ensures forall i :: 0 <= i < |s| ==> '0' <= s[i] <= '9'
  {
    if n < 10 then [Digit(n)] else Decimal(n / 10) + [Digit(n % 10)]
  }

  /** `Number(s)` on a string of decimal digits. */
  function DecimalValue(s: string): nat
    requires forall i :: 0 <= i < |s| ==> '0' <= s[i] <= '9'
  {
    if s == [] then 0 else DecimalValue(s[..|s| - 1]) * 10 + (s[|s| - 1] as int - 48)
  }

  lemma {:induction false} DecimalRoundTrip(n: nat)
    ensures DecimalValue(Decimal(n)) == n
  {
    if n >= 10 {
      DecimalRoundTrip(n / 10);
      assert Decimal(n)[..|Decimal(n)| - 1] == Decimal(n / 10);
    } else {
      assert [Digit(n)][..0] == [];
    }
  }

  lemma DecimalInjective(a: nat, b: nat)
    requires Decimal(a) == Decimal(b)
    ensures a == b
  {
    DecimalRoundTrip(a);
    DecimalRoundTrip(b);
  }

  /** JavaScript's `Number`, as far as its callers look: the integer it yields, if it yields one. */
  type NumberFn = string -> Option<int>

  // --------------------------------------------------------------------- trim

  /** White space and line terminators, as `String.prototype.trim` removes them. */
  predicate IsSpace(c: char) {
    var n := c as int;
    || 9 <= n <= 13 || n == 0x20 || n == 0xA0 || n == 0x1680 || 0x2000 <= n <= 0x200A
    || n == 0x2028 || n == 0x2029 || n == 0x202F || n == 0x205F || n == 0x3000 || n == 0xFEFF
  }

  /** The white space and line terminators of ECMAScript, by their codes. */
  const SPACES: set<int> := {
    0x09, 0x0A, 0x0B, 0x0C, 0x0D, 0x20, 0xA0, 0x1680, 0x2000, 0x2001, 0x2002, 0x2003, 0x2004, 0x2005, 0x2006, 0x2007,
    0x2008, 0x2009, 0x200A, 0x2028, 0x2029, 0x202F, 0x205F, 0x3000, 0xFEFF
  }

  lemma SpaceIff(c: char)
    ensures IsSpace(c) <==> c as int in SPACES
  {
    var n, spaces := c as int, SPACES;
    assert n in spaces <==> IsSpace(c);
  }

  /** Where the text starts once leading white space from `at` on is skipped. */
  function SkipSpaces(s: string, at: nat): (r: nat)
    requires at <= |s|
    ensures at <= r <= |s|
    ensures forall k :: at <= k < r ==> IsSpace(s[k])
    ensures r < |s| ==> !IsSpace(s[r])
    decreases |s| - at
  {
    if at < |s| && IsSpace(s[at]) then SkipSpaces(s, at + 1) else at
  }

  /** Where the text ends once white space before `at`, down to `from`, is dropped. */
  function DropSpaces(s: string, from: nat, at: nat): (r: nat)
    requires from <= at <= |s|
    ensures from <= r <= at
    ensures forall k :: r <= k < at ==> IsSpace(s[k])
    ensures r > from ==> !IsSpace(s[r - 1])
  {
    if from < at && IsSpace(s[at - 1]) then DropSpaces(s, from, at - 1) else at
  }

  predicate Trimmed(s: string) {
    s == [] || (!IsSpace(s[0]) && !IsSpace(s[|s| - 1]))
  }

  function Trim(s: string): (r: string)
    ensures Trimmed(r)
    ensures Trimmed(s) ==> r == s
  {
    var start := SkipSpaces(s, 0);
    s[start..DropSpaces(s, start, |s|)]
  }

  // ------------------------------------------------------------------- search

  predicate OccursAt(s: string, needle: string, at: int) {
    0 <= at && at + |needle| <= |s| && s[at..at + |needle|] == needle
  }

  ghost predicate Contains(s: string, needle: string) {
    exists at :: OccursAt(s, needle, at)
  }

  /** `indexOf` from a given position: the first occurrence at or after `from`. */
  function IndexFrom(s: string, needle: string, from: nat): (r: Option<nat>)
    requires from <= |s|
    ensures r.Some? ==> from <= r.value && OccursAt(s, needle, r.value)
    ensures r.Some? ==> forall k :: from <= k < r.value ==> !OccursAt(s, needle, k)
    ensures r.None? ==> forall k :: from <= k ==> !OccursAt(s, needle, k)
    decreases |s| - from
  {
    if OccursAt(s, needle, from) then Some(from)
    else if from == |s| then None
    else IndexFrom(s, needle, from + 1)
  }

  function IndexOf(s: string, needle: string): (r: Option<nat>)
    ensures r.Some? ==> OccursAt(s, needle, r.value)
    ensures r.Some? ==> forall k :: 0 <= k < r.value ==> !OccursAt(s, needle, k)
    ensures r.None? ==> forall k :: 0 <= k ==> !OccursAt(s, needle, k)
  {
    IndexFrom(s, needle, 0)
  }

  /** The first occurrence is the only position that `indexOf` can return. */
  lemma IndexIs(s: string, needle: string, at: nat)
    requires OccursAt(s, needle, at)
    requires forall k :: 0 <= k < at ==> !OccursAt(s, needle, k)
    ensures IndexOf(s, needle) == Some(at)
  {
    var r := IndexOf(s, needle);
    if r.Some? {
      assert OccursAt(s, needle, r.value);
    }
  }

  // ------------------------------------------------------------ split and join

  function Split(s: string, sep: string): (parts: seq<string>)
    requires sep != []
    ensures parts != []
    decreases |s|
  {
    var at := IndexOf(s, sep);
    if at.None? then [s] else [s[..at.value]] + Split(s[at.value + |sep|..], sep)
  }

  function Join(parts: seq<string>, sep: string): string {
    if parts == [] then []
    else if |parts| == 1 then parts[0]
    else parts[0] + sep + Join(parts[1..], sep)
  }

  lemma {:induction false} JoinSplit(s: string, sep: string)
    requires sep != []
    ensures Join(Split(s, sep), sep) == s
    decreases |s|
  {
    var at := IndexOf(s, sep);
    if at.Some? {
      var rest := s[at.value + |sep|..];
      JoinSplit(rest, sep);
      JoinCons(s[..at.value], Split(rest, sep), sep);
      CutAt(s, sep, at.value);
    }
  }

  lemma JoinCons(head: string, parts: seq<string>, sep: string)
    requires parts != []
    ensures Join([head] + parts, sep) == head + sep + Join(parts, sep)
  {
    assert ([head] + parts)[1..] == parts;
  }

  lemma CutAt(s: string, needle: string, at: nat)
    requires OccursAt(s, needle, at)
    ensures s[..at] + needle + s[at + |needle|..] == s
  {
  }

  /** Splitting at a character cuts exactly at its occurrences. */
  lemma SplitFirst(head: string, c: char, tail: string)
    requires c !in head
    ensures Split(head + [c] + tail, [c]) == [head] + Split(tail, [c])
  {
    var s := head + [c] + tail;
    forall k | 0 <= k < |head|
      ensures !OccursAt(s, [c], k)
    {
      assert s[k..k + 1][0] == head[k];
    }
    assert OccursAt(s, [c], |head|);
    IndexIs(s, [c], |head|);
    assert s[..|head|] == head && s[|head| + 1..] == tail;
  }

  lemma SplitNone(s: string, c: char)
    requires c !in s
    ensures Split(s, [c]) == [s]
  {
    forall k | 0 <= k
      ensures !OccursAt(s, [c], k)
    {
      if k + 1 <= |s| {
        assert s[k..k + 1][0] == s[k];
      }
    }
  }

  lemma {:induction false} SplitParts(s: string, c: char)
    ensures forall p :: p in Split(s, [c]) ==> c !in p
    decreases |s|
  {
    var at := IndexOf(s, [c]);
    if at.None? {
      forall k | 0 <= k < |s|
        ensures s[k] != c
      {
        assert !OccursAt(s, [c], k);
        assert s[k..k + 1] == [s[k]];
      }
    } else {
      forall k | 0 <= k < at.value
        ensures s[..at.value][k] != c
      {
        assert !OccursAt(s, [c], k);
        assert s[k..k + 1] == [s[k]];
      }
      SplitParts(s[at.value + 1..], c);
    }
  }

  /** Joining separator-free parts and splitting again gives the parts back. */
  lemma {:induction false} SplitJoin(parts: seq<string>, c: char)
    requires parts != []
    requires forall p :: p in parts ==> c !in p
    ensures Split(Join(parts, [c]), [c]) == parts
  {
    if |parts| == 1 {
      SplitNone(parts[0], c);
    } else {
      SplitJoin(parts[1..], c);
      assert Join(parts, [c]) == parts[0] + [c] + Join(parts[1..], [c]);
      SplitFirst(parts[0], c, Join(parts[1..], [c]));
    }
  }

  /** The same in front of any further text. */
  lemma {:induction false} SplitJoinTail(parts: seq<string>, c: char, tail: string)
    requires parts != []
    requires forall p :: p in parts ==> c !in p
    ensures Split(Join(parts, [c]) + [c] + tail, [c]) == parts + Split(tail, [c])
  {
    if |parts| == 1 {
      SplitFirst(parts[0], c, tail);
    } else {
      var rest := Join(parts[1..], [c]) + [c] + tail;
      SplitJoinTail(parts[1..], c, tail);
      SplitFirst(parts[0], c, rest);
      JoinTailCons(parts, c, tail);
      ConsAppend(parts, Split(tail, [c]));
    }
  }

  lemma JoinTailCons(parts: seq<string>, c: char, tail: string)
    requires |parts| > 1
    ensures Join(parts, [c]) + [c] + tail == parts[0] + [c] + (Join(parts[1..], [c]) + [c] + tail)
  {
    assert Join(parts, [c]) == parts[0] + [c] + Join(parts[1..], [c]);
    Regroup(parts[0], [c], Join(parts[1..], [c]), tail);
  }

  lemma Regroup(head: string, separator: string, middle: string, tail: string)
    ensures (head + separator + middle) + separator + tail == head + separator + (middle + separator + tail)
  {
  }

  lemma ConsAppend(parts: seq<string>, more: seq<string>)
    requires parts != []
    ensures [parts[0]] + (parts[1..] + more) == parts + more
  {
  }

  // --------------------------------------------------------------- character classes

  /** The class `[A-Za-z0-9]`. */
  predicate IsAlphanumeric(c: char) {
    'A' <= c <= 'Z' || 'a' <= c <= 'z' || '0' <= c <= '9'
  }

  const UPPER := "ABCDEFGHIJKLMNOPQRSTUVWXYZ"
  const LOWER := "abcdefghijklmnopqrstuvwxyz"
  const DIGITS := "0123456789"

  /** A range of codes holds the characters of a text that counts them up. */
  lemma RangeHolds(text: string, c: char)
    requires text != [] && forall i :: 0 <= i < |text| ==> text[i] as int == text[0] as int + i
    ensures c in text <==> text[0] <= c <= text[|text| - 1]
  {
    if text[0] <= c <= text[|text| - 1] {
      var i := c as int - text[0] as int;
      assert text[i] as int == c as int;
    }
  }

  /** The letters of the alphabet and the digits, and no other character. */
  lemma AlphanumericIff(c: char)
    ensures IsAlphanumeric(c) <==> c in UPPER || c in LOWER || c in DIGITS
  {
    RangeHolds(UPPER, c);
    RangeHolds(LOWER, c);
    RangeHolds(DIGITS, c);
  }

  // -------------------------------------------------------------------- order

  /** The `<` of two strings: by the first difference, a proper prefix first. */
  predicate Less(a: string, b: string)
    decreases |a|
  {
    b != [] && (a == [] || a[0] < b[0] || (a[0] == b[0] && Less(a[1..], b[1..])))
  }

  /** The strings agree before `k`, and there the first has the smaller character. */
  predicate SmallerAt(a: string, b: string, k: nat) {
    k < |a| && k < |b| && a[..k] == b[..k] && a[k] < b[k]
  }

  lemma SmallerBehind(a: string, b: string, k: nat)
    requires a != [] && b != [] && a[0] == b[0]
    ensures !SmallerAt(a, b, 0) && (SmallerAt(a, b, k + 1) <==> SmallerAt(a[1..], b[1..], k))
  {
    if k < |a| - 1 && k < |b| - 1 {
      assert a[..k + 1] == [a[0]] + a[1..][..k] && b[..k + 1] == [b[0]] + b[1..][..k];
    }
  }

  /** A proper prefix comes first, and otherwise the first difference decides. */
  lemma {:induction false} LessIff(a: string, b: string)
    ensures Less(a, b) <==> a < b || exists k: nat :: SmallerAt(a, b, k)
  {
    if a != [] && b != [] && a[0] == b[0] {
      LessIff(a[1..], b[1..]);
      assert a == [a[0]] + a[1..] && b == [b[0]] + b[1..];
      if k: nat :| SmallerAt(a[1..], b[1..], k) {
        SmallerBehind(a, b, k);
      }
      if k: nat :| SmallerAt(a, b, k) {
        SmallerBehind(a, b, Max(0, k - 1));
      }
    } else if a != [] && b != [] {
      assert SmallerAt(a, b, 0) <==> a[0] < b[0];
      assert forall k: nat :: 0 < k && SmallerAt(a, b, k) ==> a[..k][0] == b[..k][0];
    }
  }

  lemma {:induction false} LessTotal(a: string, b: string)
    ensures a == b || Less(a, b) || Less(b, a)
  {
    if a != [] && b != [] && a[0] == b[0] {
      LessTotal(a[1..], b[1..]);
      assert a == [a[0]] + a[1..] && b == [b[0]] + b[1..];
    }
  }

  lemma {:induction false} LessAsymmetric(a: string, b: string)
    requires Less(a, b)
    ensures !Less(b, a) && a != b
  {
    if a != [] && a[0] == b[0] {
      LessAsymmetric(a[1..], b[1..]);
    }
  }

  lemma {:induction false} LessTransitive(a: string, b: string, c: string)
    requires Less(a, b) && Less(b, c)
    ensures Less(a, c)
  {
    if a != [] && a[0] == b[0] && b[0] == c[0] {
      LessTransitive(a[1..], b[1..], c[1..]);
    }
  }

  /** Exactly one of before, same, after. */
  lemma LessTrichotomy(a: string, b: string)
    ensures !(Less(a, b) && Less(b, a)) && !Less(a, a)
    ensures a == b || Less(a, b) || Less(b, a)
  {
    LessTotal(a, b);
    if Less(a, b) {
      LessAsymmetric(a, b);
    }
    if Less(a, a) {
      LessAsymmetric(a, a);
    }
  }

  /** "Not after" is transitive. */
  lemma NotAfterTransitive(a: string, b: string, c: string)
    ensures !Less(b, a) && !Less(c, b) ==> !Less(c, a) && (a == c ==> a == b)
  {
    LessTrichotomy(a, b);
    LessTrichotomy(b, c);
    LessTrichotomy(a, c);
    if Less(a, b) && Less(b, c) {
      LessTransitive(a, b, c);
    }
  }
}
