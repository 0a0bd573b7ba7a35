/**
 * Small building blocks shared by the GreenFlow model: optional values,
 * Python-style truthiness, clamping, Python prefix slicing, and the string
 * operations the source relies on (ASCII case mapping, substring search,
 * `str.split` on one separator, `str.strip`).
 */
module Common {

  datatype Option<T> = None | Some(value: T)

  datatype Result<T, E> = Ok(value: T) | Err(error: E)

  // ---------------------------------------------------------------------------
  // Numbers
  // ---------------------------------------------------------------------------

  function Min(a: real, b: real): real { if a <= b then a else b }

  function Max(a: real, b: real): real { if a >= b then a else b }

  /** `max(lo, min(hi, x))`, the clamp idiom used throughout the source. */
  function Clamp(x: real, lo: real, hi: real): (r: real)
    requires lo <= hi
    ensures lo <= r <= hi
    ensures lo <= x <= hi ==> r == x
    ensures x <= lo ==> r == lo
    ensures hi <= x ==> r == hi
  {
    Max(lo, Min(hi, x))
  }

  lemma ClampMonotone(x: real, y: real, lo: real, hi: real)
    requires lo <= hi && x <= y
    ensures Clamp(x, lo, hi) <= Clamp(y, lo, hi)
  {
  }

  lemma MulPos(a: real, b: real)
    requires a > 0.0 && b > 0.0
    ensures a * b > 0.0
  {
  }

  lemma MulNonneg(a: real, b: real)
    requires a >= 0.0 && b >= 0.0
    ensures a * b >= 0.0
  {
  }

  /** Multiplying by a non-negative factor keeps the order. */
  lemma MulLeft(a: real, b: real, v: real)
    requires a <= b && v >= 0.0
    ensures a * v <= b * v && v * a <= v * b
  {
    MulNonneg(b - a, v);
    assert (b - a) * v == b * v - a * v;
    MulNonneg(v, b - a);
    assert v * (b - a) == v * b - v * a;
  }

  /** Python truthiness of an optional float: `None` and `0.0` are falsy. */
  predicate Truthy(x: Option<real>)
  {
    x.Some? && x.value != 0.0
  }

  /** Python's `a or b` on optional floats. */
  function OrElse(a: Option<real>, b: real): (r: real)
    ensures Truthy(a) ==> r == a.value
    ensures !Truthy(a) ==> r == b
  {
    if Truthy(a) then a.value else b
  }

  // ---------------------------------------------------------------------------
  // Python slicing `s[:n]`
  // ---------------------------------------------------------------------------

  /** `s[:n]` for any integer `n`; a negative `n` drops `-n` items from the end. */
  function PyPrefix<T>(s: seq<T>, n: int): (r: seq<T>)
    ensures |r| == (if n >= 0 then (if n <= |s| then n else |s|)
                    else (if |s| + n >= 0 then |s| + n else 0))
    ensures r == s[..|r|]
  {
    if n >= 0 then (if n <= |s| then s[..n] else s)
    else if |s| + n >= 0 then s[..|s| + n]
    else []
  }

  // ---------------------------------------------------------------------------
  // collections.deque(maxlen=cap): append on the right, appendleft
  // ---------------------------------------------------------------------------

  /** `d.append(x)` on a deque bounded by `cap`: the oldest items fall off the left. */
  function PushBounded<T>(d: seq<T>, x: T, cap: nat): (r: seq<T>)
    ensures |r| == (if |d| + 1 <= cap then |d| + 1 else cap)
    ensures r == (d + [x])[|d| + 1 - |r|..]
  {
    var full := d + [x];
    if |full| <= cap then full else full[|full| - cap..]
  }

  /** `d.appendleft(x)` on a deque bounded by `cap`: the oldest items fall off the right. */
  function PrependBounded<T>(x: T, d: seq<T>, cap: nat): (r: seq<T>)
    ensures |r| == (if |d| + 1 <= cap then |d| + 1 else cap)
    ensures r == ([x] + d)[..|r|]
  {
    var full := [x] + d;
    if |full| <= cap then full else full[..cap]
  }

  function Reverse<T>(s: seq<T>): (r: seq<T>)
    ensures |r| == |s|
    ensures forall i :: 0 <= i < |s| ==> r[i] == s[|s| - 1 - i]
  {
    if s == [] then [] else Reverse(s[1..]) + [s[0]]
  }

  lemma ReverseSnoc<T>(s: seq<T>, x: T)
    ensures Reverse(s + [x]) == [x] + Reverse(s)
  {
    assert |Reverse(s + [x])| == |[x] + Reverse(s)|;
    forall i | 0 <= i < |s| + 1
      ensures Reverse(s + [x])[i] == ([x] + Reverse(s))[i]
    {
      if i > 0 {
        assert ([x] + Reverse(s))[i] == Reverse(s)[i - 1];
      }
    }
  }

  /** The newest `cap` items of a log, newest first: what a bounded `appendleft` deque holds. */
  function NewestFirst<T>(log: seq<T>, cap: nat): (r: seq<T>)
    ensures |r| == if |log| <= cap then |log| else cap
  {
    Reverse(log)[..if |log| <= cap then |log| else cap]
  }

  /** `appendleft` on the deque keeps it the newest-first view of the log. */
  lemma PrependNewestFirst<T>(log: seq<T>, x: T, cap: nat)
    ensures PrependBounded(x, NewestFirst(log, cap), cap) == NewestFirst(log + [x], cap)
  {
    ReverseSnoc(log, x);
    var m := if |log| <= cap then |log| else cap;
    assert [x] + Reverse(log)[..m] == ([x] + Reverse(log))[..m + 1];
  }

  /** The newest `cap` items of a log, oldest first: what a list trimmed from the front holds. */
  function NewestLast<T>(log: seq<T>, cap: nat): (r: seq<T>)
    ensures |r| == if |log| <= cap then |log| else cap
  {
    log[|log| - (if |log| <= cap then |log| else cap)..]
  }

  /** `append` followed by dropping the front item when over `cap` keeps the newest-last view of the log. */
  lemma AppendTrimNewestLast<T>(log: seq<T>, x: T, cap: nat)
    requires cap >= 1
    ensures var t := NewestLast(log, cap) + [x];
            (if |t| > cap then t[1..] else t) == NewestLast(log + [x], cap)
  {
    var t := NewestLast(log, cap) + [x];
    var m := if |log| <= cap then |log| else cap;
    assert t == (log + [x])[|log| - m..];
  }

  // ---------------------------------------------------------------------------
  // A loop that appends what `f` yields for each element, in order
  // ---------------------------------------------------------------------------

  function FlatMap<T, U>(f: T -> seq<U>, xs: seq<T>): seq<U>
  {
    if xs == [] then [] else f(xs[0]) + FlatMap(f, xs[1..])
  }

  lemma {:induction false} FlatMapAppend<T, U>(f: T -> seq<U>, xs: seq<T>, ys: seq<T>)
    ensures FlatMap(f, xs + ys) == FlatMap(f, xs) + FlatMap(f, ys)
  {
    if xs == [] {
      assert xs + ys == ys;
    } else {
      assert (xs + ys)[0] == xs[0] && (xs + ys)[1..] == xs[1..] + ys;
      FlatMapAppend(f, xs[1..], ys);
    }
  }

  /** Everything produced comes from some element. */
  lemma {:induction false} FlatMapMember<T, U>(f: T -> seq<U>, xs: seq<T>, u: U)
    requires u in FlatMap(f, xs)
    ensures exists i :: 0 <= i < |xs| && u in f(xs[i])
  {
    if u !in f(xs[0]) {
      FlatMapMember(f, xs[1..], u);
      var i :| 0 <= i < |xs[1..]| && u in f(xs[1..][i]);
      assert xs[1..][i] == xs[i + 1];
    }
  }

  /** Everything an element yields is produced. */
  lemma {:induction false} FlatMapIncludes<T, U>(f: T -> seq<U>, xs: seq<T>, i: nat, u: U)
    requires i < |xs| && u in f(xs[i])
    ensures u in FlatMap(f, xs)
  {
    if i > 0 {
      FlatMapIncludes(f, xs[1..], i - 1, u);
      assert xs[1..][i - 1] == xs[i];
    }
  }

  /** When each element yields at most one value, at most one value per element is produced. */
  lemma {:induction false} FlatMapAtMostOne<T, U>(f: T -> seq<U>, xs: seq<T>)
    requires forall i :: 0 <= i < |xs| ==> |f(xs[i])| <= 1
    ensures |FlatMap(f, xs)| <= |xs|
  {
    if xs != [] {
      assert forall i :: 0 <= i < |xs[1..]| ==> xs[1..][i] == xs[i + 1];
      FlatMapAtMostOne(f, xs[1..]);
    }
  }

  // ---------------------------------------------------------------------------
  // ASCII case mapping
  // ---------------------------------------------------------------------------

  predicate IsAsciiUpper(c: char) { 'A' <= c <= 'Z' }

  predicate IsAsciiLower(c: char) { 'a' <= c <= 'z' }

  predicate IsAsciiLetter(c: char) { IsAsciiUpper(c) || IsAsciiLower(c) }

  function LowerChar(c: char): (r: char)
    ensures !IsAsciiUpper(r)
    ensures IsAsciiLetter(c) <==> IsAsciiLetter(r)
  {
    if IsAsciiUpper(c) then (c as int + 32) as char else c
  }

  function UpperChar(c: char): (r: char)
    ensures !IsAsciiLower(r)
    ensures IsAsciiLetter(c) <==> IsAsciiLetter(r)
  {
    if IsAsciiLower(c) then (c as int - 32) as char else c
  }

  function Lower(s: string): (r: string)
    ensures |r| == |s|
    ensures forall i :: 0 <= i < |s| ==> r[i] == LowerChar(s[i])
  {
    seq(|s|, i requires 0 <= i < |s| => LowerChar(s[i]))
  }

  function Upper(s: string): (r: string)
    ensures |r| == |s|
    ensures forall i :: 0 <= i < |s| ==> r[i] == UpperChar(s[i])
  {
    seq(|s|, i requires 0 <= i < |s| => UpperChar(s[i]))
  }

  /** Lower-casing forgets any earlier change of case. */
  lemma LowerOfUpper(s: string)
    ensures Lower(Upper(s)) == Lower(s)
  {
    forall i | 0 <= i < |s|
      ensures Lower(Upper(s))[i] == Lower(s)[i]
    {
      assert LowerChar(UpperChar(s[i])) == LowerChar(s[i]);
    }
  }

  /** Upper-casing forgets any earlier change of case. */
  lemma UpperOfLower(s: string)
    ensures Upper(Lower(s)) == Upper(s)
  {
    forall i | 0 <= i < |s|
      ensures Upper(Lower(s))[i] == Upper(s)[i]
    {
      assert UpperChar(LowerChar(s[i])) == UpperChar(s[i]);
    }
  }

  /** A text without upper-case letters is its own lower-cased form. */
  lemma LowerOfLowercase(s: string)
    requires forall i :: 0 <= i < |s| ==> !IsAsciiUpper(s[i])
    ensures Lower(s) == s
  {
  }

  lemma UpperOfUppercase(s: string)
    requires forall i :: 0 <= i < |s| ==> !IsAsciiLower(s[i])
    ensures Upper(s) == s
  {
  }

  lemma UpperIdempotent(s: string)
    ensures Upper(Upper(s)) == Upper(s)
  {
    forall i | 0 <= i < |s|
      ensures Upper(Upper(s))[i] == Upper(s)[i]
    {
      assert UpperChar(UpperChar(s[i])) == UpperChar(s[i]);
    }
  }

  lemma LowerIdempotent(s: string)
    ensures Lower(Lower(s)) == Lower(s)
  {
    forall i | 0 <= i < |s|
      ensures Lower(Lower(s))[i] == Lower(s)[i]
    {
      assert LowerChar(LowerChar(s[i])) == LowerChar(s[i]);
    }
  }

  /** `"".join(parts)`. */
  function Concat(parts: seq<string>): (r: string)
    ensures parts != [] ==> StartsWith(r, parts[0])
  {
    if parts == [] then "" else parts[0] + Concat(parts[1..])
  }

  // ---------------------------------------------------------------------------
  // Substring search: Python's `w in s`
  // ---------------------------------------------------------------------------

  predicate StartsWith(s: string, p: string)
  {
    |p| <= |s| && s[..|p|] == p
  }

  /** `w` occurs in `s` starting at index `i`. */
  predicate OccursAt(s: string, w: string, i: int)
  {
    0 <= i <= |s| - |w| && s[i..i + |w|] == w
  }

  predicate Contains(s: string, w: string)
    decreases |s|
  {
    StartsWith(s, w) || (|s| > 0 && Contains(s[1..], w))
  }

  /** `Contains` agrees with the positional definition of an occurrence. */
  lemma {:induction false} ContainsIff(s: string, w: string)
    ensures Contains(s, w) <==> exists i :: OccursAt(s, w, i)
    decreases |s|
  {
    if StartsWith(s, w) {
      assert OccursAt(s, w, 0);
    } else if |s| > 0 {
      ContainsIff(s[1..], w);
      if exists i :: OccursAt(s, w, i) {
        var i :| OccursAt(s, w, i);
        assert s[1..][i - 1..i - 1 + |w|] == w;
        assert OccursAt(s[1..], w, i - 1);
      }
      if Contains(s[1..], w) {
        var j :| OccursAt(s[1..], w, j);
        assert s[j + 1..j + 1 + |w|] == w;
        assert OccursAt(s, w, j + 1);
      }
    }
  }

  /** An occurrence at a known position witnesses `Contains`. */
  lemma ContainsAt(s: string, w: string, i: int)
    requires OccursAt(s, w, i)
    ensures Contains(s, w)
  {
    ContainsIff(s, w);
  }

  /** Lower-casing the text again changes no substring test on it. */
  lemma ContainsLowerAgain(s: string, w: string)
    ensures Contains(Lower(Lower(s)), w) == Contains(Lower(s), w)
  {
    LowerIdempotent(s);
  }

  /** `sum(1 for w in words if w in s)`: how many of `words` occur in `s`. */
  function CountContained(words: seq<string>, s: string): (n: nat)
    ensures n <= |words|
    ensures n == 0 <==> forall i :: 0 <= i < |words| ==> !Contains(s, words[i])
  {
    if words == [] then 0
    else
      var rest := CountContained(words[1..], s);
      assert forall i :: 1 <= i < |words| ==> words[i] == words[1..][i - 1];
      (if Contains(s, words[0]) then 1 else 0) + rest
  }

  // ---------------------------------------------------------------------------
  // str.split(sep) and str.strip()
  // ---------------------------------------------------------------------------

  /** `s.split(sep)` for a one-character separator: never empty; `"".split(",") == [""]`. */
  function Split(s: string, sep: char): (r: seq<string>)
    ensures |r| >= 1
    decreases |s|
  {
    if |s| == 0 then [""]
    else
      var rest := Split(s[1..], sep);
      if s[0] == sep then [""] + rest
      else [[s[0]] + rest[0]] + rest[1..]
  }

  /** `sep.join(parts)`. */
  function Join(parts: seq<string>, sep: char): string
    requires |parts| >= 1
    decreases |parts|
  {
    if |parts| == 1 then parts[0] else parts[0] + [sep] + Join(parts[1..], sep)
  }

  /** Splitting loses nothing: joining the pieces gives the text back. */
  lemma {:induction false} JoinSplit(s: string, sep: char)
    ensures Join(Split(s, sep), sep) == s
    decreases |s|
  {
    if |s| > 0 {
      var rest := Split(s[1..], sep);
      JoinSplit(s[1..], sep);
      if s[0] == sep {
        assert Split(s, sep)[1..] == rest;
      } else {
        var r := Split(s, sep);
        if |rest| == 1 {
          assert r == [[s[0]] + rest[0]];
        } else {
          assert r[1..] == rest[1..];
          assert Join(rest, sep) == rest[0] + [sep] + Join(rest[1..], sep);
        }
        assert s == [s[0]] + s[1..];
      }
    }
  }

  /** No piece of a split contains the separator. */
  lemma {:induction false} SplitPiecesFree(s: string, sep: char)
    ensures forall i :: 0 <= i < |Split(s, sep)| ==> sep !in Split(s, sep)[i]
    decreases |s|
  {
    if |s| > 0 {
      SplitPiecesFree(s[1..], sep);
    }
  }

  /** A text free of the separator splits into itself. */
  lemma {:induction false} SplitNoSep(s: string, sep: char)
    requires sep !in s
    ensures Split(s, sep) == [s]
    decreases |s|
  {
    if |s| > 0 {
      assert sep !in s[1..];
      SplitNoSep(s[1..], sep);
      assert [s[0]] + s[1..] == s;
    }
  }

  /** Splitting `a + [sep] + b` where `a` is free of the separator. */
  lemma {:induction false} SplitAt(a: string, sep: char, b: string)
    requires sep !in a
    ensures Split(a + [sep] + b, sep) == [a] + Split(b, sep)
    decreases |a|
  {
    if |a| == 0 {
      assert a + [sep] + b == [sep] + b;
      assert ([sep] + b)[1..] == b;
    } else {
      assert (a + [sep] + b)[1..] == a[1..] + [sep] + b;
      assert sep !in a[1..];
      SplitAt(a[1..], sep, b);
      assert [a[0]] + a[1..] == a;
    }
  }

  /**
   * The characters for which Python's `str.isspace()` holds: ASCII
   * whitespace, the separators U+001C..U+001F, and the Unicode spaces.
   */
  predicate IsSpace(c: char)
  {
    var n := c as int;
    (9 <= n <= 13) || (28 <= n <= 32) || n == 0x85 || n == 0xA0 || n == 0x1680
    || (0x2000 <= n <= 0x200A) || n == 0x2028 || n == 0x2029 || n == 0x202F
    || n == 0x205F || n == 0x3000
  }

  function TrimLeft(s: string): (r: string)
    ensures |r| <= |s| && r == s[|s| - |r|..]
    ensures r == [] || !IsSpace(r[0])
    ensures forall i :: 0 <= i < |s| - |r| ==> IsSpace(s[i])
    decreases |s|
  {
    if |s| > 0 && IsSpace(s[0]) then TrimLeft(s[1..]) else s
  }

  function TrimRight(s: string): (r: string)
    ensures |r| <= |s| && r == s[..|r|]
    ensures r == [] || !IsSpace(r[|r| - 1])
    ensures forall i :: |r| <= i < |s| ==> IsSpace(s[i])
    decreases |s|
  {
    if |s| > 0 && IsSpace(s[|s| - 1]) then TrimRight(s[..|s| - 1]) else s
  }

  /** `r` is the slice `s[a..b]`, and everything of `s` outside that slice is whitespace. */
  predicate SpaceFramed(s: string, r: string, a: int, b: int)
  {
    && 0 <= a <= b <= |s| && r == s[a..b]
    && (forall i :: 0 <= i < a ==> IsSpace(s[i]))
    && (forall i :: b <= i < |s| ==> IsSpace(s[i]))
  }

  /** `r` is `s` with some leading and some trailing whitespace taken away, and nothing else. */
  ghost predicate FramedBySpace(s: string, r: string)
  {
    exists a, b :: SpaceFramed(s, r, a, b)
  }

  /** `s.strip()`: the text without leading or trailing whitespace. */
  function Strip(s: string): (r: string)
    ensures r == [] || (!IsSpace(r[0]) && !IsSpace(r[|r| - 1]))
  {
    var l := TrimLeft(s);
    var r := TrimRight(l);
    assert r != [] ==> r[0] == l[0];
    r
  }

  /** Stripping removes only surrounding whitespace: the result is a slice of the text with only whitespace outside it. */
  lemma StripFramed(s: string)
    ensures FramedBySpace(s, Strip(s))
  {
    var l := TrimLeft(s);
    var r := TrimRight(l);
    var a := |s| - |l|;
    var b := a + |r|;
    assert l == s[a..] && r == l[..|r|];
    assert r == s[a..b];
    forall i | b <= i < |s|
      ensures IsSpace(s[i])
    {
      assert s[i] == l[i - a];
    }
    assert SpaceFramed(s, r, a, b);
  }

  /** A text that neither starts nor ends with whitespace is its own strip. */
  lemma StripUnpadded(s: string)
    requires s != [] && !IsSpace(s[0]) && !IsSpace(s[|s| - 1])
    ensures Strip(s) == s
  {
  }
}
