/**
 * The Python string operations the core relies on: `strip`, `lstrip`,
 * `lower`, `in` on strings and lists, `find`, `split`, slicing and `str` of
 * an integer.  Characters are Unicode scalar values, as in Python 3.
 */
module PyText {

  /** The characters for which Python's `str.isspace()` is true. */
  predicate IsSpace(c: char) {
    ('\t' <= c <= '\U{000D}') || ('\U{001C}' <= c <= ' ') ||
    c == '\U{0085}' || c == '\U{00A0}' || c == '\U{1680}' ||
    ('\U{2000}' <= c <= '\U{200A}') || c == '\U{2028}' || c == '\U{2029}' ||
    c == '\U{202F}' || c == '\U{205F}' || c == '\U{3000}'
  }

  /** Removes the longest prefix whose characters all satisfy `drop` (`s.lstrip(chars)`). */
  function TrimStart(s: string, drop: char -> bool): (r: string)
    ensures |r| <= |s| && r == s[|s| - |r|..]
    ensures forall i :: 0 <= i < |s| - |r| ==> drop(s[i])
    ensures r == [] || !drop(r[0])
  {
    if s != [] && drop(s[0]) then TrimStart(s[1..], drop) else s
  }

  /** Removes the longest suffix whose characters all satisfy `drop` (`s.rstrip(chars)`). */
  function TrimEnd(s: string, drop: char -> bool): (r: string)
    ensures |r| <= |s| && r == s[..|r|]
    ensures forall i :: |r| <= i < |s| ==> drop(s[i])
    ensures r == [] || !drop(r[|r| - 1])
  {
    if s != [] && drop(s[|s| - 1]) then TrimEnd(s[..|s| - 1], drop) else s
  }

  /** `s[i..j]` is `s` without the characters satisfying `drop` on either side of it. */
  predicate TrimmedTo(s: string, drop: char -> bool, i: nat, j: nat)
  {
    i <= j <= |s| && (forall p :: 0 <= p < i ==> drop(s[p])) && (forall p :: j <= p < |s| ==> drop(s[p])) &&
    (i < j ==> !drop(s[i]) && !drop(s[j - 1]))
  }

  /** `s[i..j]` is `s` without the whitespace on either side of it. */
  predicate SpaceAround(s: string, i: nat, j: nat)
  {
    TrimmedTo(s, IsSpace, i, j)
  }

  /** Python's `s.strip()`: the slice `s[i..j]` left when the whitespace on either side is dropped. */
  function Strip(s: string): (r: string)
    ensures r == [] || (!IsSpace(r[0]) && !IsSpace(r[|r| - 1]))
    ensures exists i: nat, j: nat :: SpaceAround(s, i, j) && r == s[i..j]
  {
    var t := TrimStart(s, IsSpace);
    var r := TrimEnd(t, IsSpace);
    TrimBoth(s, IsSpace, t, r);
    assert SpaceAround(s, |s| - |t|, |s| - |t| + |r|);
    r
  }

  /** Trimming `drop` characters at the start and then at the end keeps a slice with only `drop` characters around it. */
  lemma {:induction false} TrimBoth(s: string, drop: char -> bool, t: string, r: string)
    requires |t| <= |s| && t == s[|s| - |t|..] && (t == [] || !drop(t[0]))
    requires |r| <= |t| && r == t[..|r|] && (r == [] || !drop(r[|r| - 1]))
    requires forall p :: |r| <= p < |t| ==> drop(t[p])
    requires forall p :: 0 <= p < |s| - |t| ==> drop(s[p])
    ensures r == s[|s| - |t|..|s| - |t| + |r|]
    ensures TrimmedTo(s, drop, |s| - |t|, |s| - |t| + |r|)
    ensures r != [] ==> r[0] == s[|s| - |t|] && r[|r| - 1] == s[|s| - |t| + |r| - 1]
  {
    var i := |s| - |t|;
    forall p | i + |r| <= p < |s| ensures drop(s[p]) {
      assert s[p] == t[p - i];
    }
    if r != [] {
      assert r[0] == s[i] && r[|r| - 1] == s[i + |r| - 1];
    }
  }

  /** A string with no whitespace at either end is its own `strip()`. */
  lemma StripUnchanged(s: string)
    requires s != [] && !IsSpace(s[0]) && !IsSpace(s[|s| - 1])
    ensures Strip(s) == s
  {
    assert TrimStart(s, IsSpace) == s;
  }

  /** One space on either side of a stripped text is what `strip()` removes. */
  lemma {:induction false} StripSpacePadded(x: string)
    requires x != [] && !IsSpace(x[0]) && !IsSpace(x[|x| - 1])
    ensures Strip(" " + x + " ") == x
  {
    var s := " " + x + " ";
    assert s[1..] == x + " ";
    assert TrimStart(x + " ", IsSpace) == x + " ";
    assert TrimStart(s, IsSpace) == x + " ";
    assert (x + " ")[..|x|] == x;
    assert TrimEnd(x, IsSpace) == x;
  }

  /** Python's `s.lstrip("@")`: every leading '@' goes. */
  function LStripAt(s: string): (r: string)
    ensures r == [] || r[0] != '@'
    ensures exists k :: 0 <= k <= |s| && r == s[k..] && forall i :: 0 <= i < k ==> s[i] == '@'
  {
    TrimStart(s, c => c == '@')
  }

  /** `lstrip("@")` removes exactly a leading run of '@' when what follows it does not start with '@'. */
  lemma {:induction false} LStripAtRun(ats: string, rest: string)
    requires forall i :: 0 <= i < |ats| ==> ats[i] == '@'
    requires rest == [] || rest[0] != '@'
    ensures LStripAt(ats + rest) == rest
  {
    if ats == [] {
      assert ats + rest == rest;
    } else {
      assert (ats + rest)[1..] == ats[1..] + rest;
      LStripAtRun(ats[1..], rest);
    }
  }

  predicate IsUpper(c: char) { 'A' <= c <= 'Z' }

  function LowerChar(c: char): (d: char)
    ensures !IsUpper(d)
  {
    if IsUpper(c) then (c as int + 32) as char else c
  }

  /** Lower-casing changes no whitespace character and no '@'. */
  lemma LowerCharKeeps(c: char)
    ensures IsSpace(LowerChar(c)) <==> IsSpace(c)
    ensures LowerChar(c) == '@' <==> c == '@'
  {
  }

  /** Python's `s.lower()`, restricted to the ASCII letters. */
  function Lower(s: string): (r: string)
    ensures |r| == |s|
    ensures forall i :: 0 <= i < |r| ==> !IsUpper(r[i])
    ensures forall i :: 0 <= i < |s| && !IsUpper(s[i]) ==> r[i] == s[i]
  {
    seq(|s|, i requires 0 <= i < |s| => LowerChar(s[i]))
  }

  /** `sub` occurs in `s` starting at index `i`. */
  predicate OccursAt(s: string, sub: string, i: nat) {
    i + |sub| <= |s| && s[i..i + |sub|] == sub
  }

  /** `sub in s` for strings: `sub` occurs in `s` at some position. */
  function Contains(s: string, sub: string): (b: bool)
    ensures b <==> exists i: nat :: OccursAt(s, sub, i)
  {
    if |sub| > |s| then false
    else if s[..|sub|] == sub then assert OccursAt(s, sub, 0); true
    else
      var b := Contains(s[1..], sub);
      assert forall i: nat :: OccursAt(s[1..], sub, i) <==> OccursAt(s, sub, i + 1) by {
        forall i: nat ensures OccursAt(s[1..], sub, i) <==> OccursAt(s, sub, i + 1) {
          if i + |sub| <= |s| - 1 {
            assert s[1..][i..i + |sub|] == s[i + 1..i + 1 + |sub|];
          }
        }
      }
      assert (exists i: nat :: OccursAt(s, sub, i)) ==> b by {
        if i: nat :| OccursAt(s, sub, i) {
          assert i != 0;
          assert OccursAt(s[1..], sub, i - 1);
        }
      }
      b
  }

  /** Text that occurs in a middle part occurs in the whole. */
  lemma ContainsInMiddle(a: string, b: string, c: string, sub: string)
    requires Contains(b, sub)
    ensures Contains(a + b + c, sub)
  {
    var i: nat :| OccursAt(b, sub, i);
    var s := a + b + c;
    assert s[|a| + i..|a| + i + |sub|] == b[i..i + |sub|];
    assert OccursAt(s, sub, |a| + i);
  }

  /** The first index of `c` in `s`, or |s| when it does not occur (Python's `find` gives -1). */
  function Find(s: string, c: char): (k: nat)
    ensures k <= |s|
    ensures k < |s| ==> s[k] == c
    ensures forall i :: 0 <= i < k ==> s[i] != c
  {
    if s == [] then 0 else if s[0] == c then 0 else 1 + Find(s[1..], c)
  }

  /** The last index of `c` in `s`, or -1 when it does not occur (Python's `rfind`). */
  function RFind(s: string, c: char): (k: int)
    ensures -1 <= k < |s|
    ensures k >= 0 ==> s[k] == c
    ensures forall i :: k < i < |s| ==> s[i] != c
  {
    if s == [] then -1 else if s[|s| - 1] == c then |s| - 1 else RFind(s[..|s| - 1], c)
  }

  /** The first index of `x` in `xs`, as Python's `list.index`; only called when `x in xs`. */
  function IndexOf<T(==)>(xs: seq<T>, x: T): (k: nat)
    requires x in xs
    ensures k < |xs| && xs[k] == x
    ensures forall i :: 0 <= i < k ==> xs[i] != x
  {
    if xs[0] == x then 0 else 1 + IndexOf(xs[1..], x)
  }

  /** The first occurrence of `x` in a list is found after a prefix that lacks it. */
  lemma IndexOfAfterPrefix<T>(prefix: seq<T>, x: T, rest: seq<T>)
    requires x !in prefix
    ensures x in prefix + [x] + rest && IndexOf(prefix + [x] + rest, x) == |prefix|
  {
    var xs := prefix + [x] + rest;
    assert xs[|prefix|] == x;
    assert forall i :: 0 <= i < |prefix| ==> xs[i] == prefix[i];
  }

  /** Python's `s.split(sep)` for a one-character separator. */
  function Split(s: string, sep: char): (parts: seq<string>)
    ensures |parts| >= 1
    ensures forall i :: 0 <= i < |parts| ==> sep !in parts[i]
    decreases |s|
  {
    var k := Find(s, sep);
    if k == |s| then [s] else [s[..k]] + Split(s[k + 1..], sep)
  }

  /** `[p for p in parts if p]`: keeps the non-empty strings, in order. */
  function NonEmpty(parts: seq<string>): (r: seq<string>)
    ensures |r| <= |parts|
    ensures forall i :: 0 <= i < |r| ==> r[i] != [] && r[i] in parts
  {
    if parts == [] then []
    else if parts[0] == [] then NonEmpty(parts[1..])
    else [parts[0]] + NonEmpty(parts[1..])
  }

  /** Python's slice `s[:n]` for n >= 0. */
  function Take(s: string, n: nat): (r: string)
    ensures |r| == if n < |s| then n else |s|
    ensures r == s[..|r|]
  {
    if n < |s| then s[..n] else s
  }

  function DigitChar(d: nat): char
    requires d < 10
  {
    ['0', '1', '2', '3', '4', '5', '6', '7', '8', '9'][d]
  }

  predicate IsDigit(c: char) { '0' <= c <= '9' }

  /** The decimal digits of a natural number, most significant first. */
  function Digits(n: nat): (r: string)
    ensures |r| >= 1 && forall i :: 0 <= i < |r| ==> IsDigit(r[i])
    ensures r[0] == '0' ==> n == 0
  {
    if n < 10 then [DigitChar(n)] else Digits(n / 10) + [DigitChar(n % 10)]
  }

  /** Python's `str(n)` for an integer. */
  function IntToDecimal(n: int): (r: string)
    ensures |r| >= 1
    ensures r[0] == '-' <==> n < 0
  {
    if n < 0 then "-" + Digits(-n) else Digits(n)
  }

  /** The number a string of decimal digits denotes (the inverse of `Digits`). */
  function DigitsValue(s: string): nat
  {
    if s == [] then 0
    else
      var d := s[|s| - 1] as int - '0' as int;
      DigitsValue(s[..|s| - 1]) * 10 + (if 0 <= d < 10 then d else 0)
  }

  /** `str` renders a natural number so that its digits read back as the same number. */
  lemma {:induction false} DigitsRoundTrip(n: nat)
    ensures DigitsValue(Digits(n)) == n
  {
    if n >= 10 {
      var s := Digits(n / 10);
      DigitsRoundTrip(n / 10);
      assert (s + [DigitChar(n % 10)])[..|s|] == s;
    }
  }

  /** Joins non-empty segments into an absolute path: ["a", "b"] becomes "/a/b". */
  function JoinPath(segs: seq<string>): string
  {
    if segs == [] then "" else "/" + segs[0] + JoinPath(segs[1..])
  }

  predicate IsSegment(s: string) { s != [] && '/' !in s }

  lemma JoinTwo(first: string, second: string)
    ensures JoinPath([first, second]) == "/" + first + "/" + second
  {
    assert [first, second][1..] == [second];
    assert [second][1..] == [];
    assert JoinPath([second]) == "/" + second;
  }

  lemma {:induction false} SplitSegmentThenPath(s0: string, rest: seq<string>)
    requires IsSegment(s0)
    requires forall i :: 0 <= i < |rest| ==> IsSegment(rest[i])
    ensures Split(s0 + JoinPath(rest), '/') == [s0] + rest
    decreases |rest|
  {
    if rest == [] {
      assert s0 + JoinPath(rest) == s0;
    } else {
      var more := rest[1..];
      var tail := rest[0] + JoinPath(more);
      assert JoinPath(rest) == "/" + tail;
      assert s0 + JoinPath(rest) == s0 + "/" + tail;
      SplitAfterSegment(s0, tail);
      forall i | 0 <= i < |more| ensures IsSegment(more[i]) {
        assert more[i] == rest[i + 1];
      }
      SplitSegmentThenPath(rest[0], more);
      assert [rest[0]] + more == rest;
    }
  }

  /** The first '/' after a segment is where `split` cuts. */
  lemma {:induction false} SplitAfterSegment(s0: string, tail: string)
    requires IsSegment(s0)
    ensures Split(s0 + "/" + tail, '/') == [s0] + Split(tail, '/')
  {
    var s := s0 + "/" + tail;
    assert s[|s0|] == '/';
    assert forall i :: 0 <= i < |s0| ==> s[i] == s0[i];
    assert Find(s, '/') == |s0|;
    assert s[..|s0|] == s0;
    assert s[|s0| + 1..] == tail;
  }

  /** Splitting a joined path on '/' and dropping the empty parts gives back the segments. */
  lemma {:induction false} SegmentsOfJoinPath(segs: seq<string>)
    requires forall i :: 0 <= i < |segs| ==> IsSegment(segs[i])
    ensures NonEmpty(Split(JoinPath(segs), '/')) == segs
  {
    if segs == [] {
      assert Split("", '/') == [""];
    } else {
      SplitOfJoinPath(segs);
      var parts := Split(JoinPath(segs), '/');
      assert parts[0] == [] && parts[1..] == segs;
      NonEmptyOfSegments(segs);
    }
  }

  /** A joined path starts with '/', so its split is an empty part followed by the segments. */
  lemma {:induction false} SplitOfJoinPath(segs: seq<string>)
    requires segs != [] && forall i :: 0 <= i < |segs| ==> IsSegment(segs[i])
    ensures Split(JoinPath(segs), '/') == [""] + segs
  {
    var s := JoinPath(segs);
    var tail := segs[0] + JoinPath(segs[1..]);
    assert s == "/" + tail;
    assert Find(s, '/') == 0;
    assert s[1..] == tail;
    SplitSegmentThenPath(segs[0], segs[1..]);
    assert [segs[0]] + segs[1..] == segs;
  }

  lemma {:induction false} NonEmptyOfSegments(segs: seq<string>)
    requires forall i :: 0 <= i < |segs| ==> IsSegment(segs[i])
    ensures NonEmpty(segs) == segs
  {
    if segs != [] {
      NonEmptyOfSegments(segs[1..]);
      assert [segs[0]] + segs[1..] == segs;
    }
  }
}
