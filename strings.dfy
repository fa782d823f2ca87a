/**
 * The pieces of Go's `strings` package and of slice appending that the
 * statement builder relies on, as functions over `seq`.
 */
module Strings {

  /** True iff `suffix` is a suffix of `s`. */
  predicate EndsWith(s: string, suffix: string) {
    |suffix| <= |s| && s[|s| - |suffix|..] == suffix
  }

  /** Sum of the lengths of all strings in `parts`. */
  function TotalLength(parts: seq<string>): nat {
    if parts == [] then 0 else |parts[0]| + TotalLength(parts[1..])
  }

  /**
   * Go's `strings.Join(elems, sep)`: "" for no elements, the element itself
   * for one, and otherwise the elements with `sep` between each adjacent pair
   * (never before the first nor after the last).
   */
  function Join(parts: seq<string>, sep: string): (r: string)
    ensures |r| == TotalLength(parts) + (if parts == [] then 0 else (|parts| - 1) * |sep|)
  {
    if |parts| == 0 then ""
    else if |parts| == 1 then parts[0]
    else parts[0] + sep + Join(parts[1..], sep)
  }

  /** A join is empty for no parts, else begins with the first part and ends with the last. */
  lemma {:induction false} JoinEnds(parts: seq<string>, sep: string)
    ensures parts == [] ==> Join(parts, sep) == ""
    ensures parts != [] ==> parts[0] <= Join(parts, sep) && EndsWith(Join(parts, sep), parts[|parts| - 1])
  {
    if |parts| > 1 {
      JoinEnds(parts[1..], sep);
      var rest := Join(parts[1..], sep);
      var r := parts[0] + sep + rest;
      assert r[|r| - |rest|..] == rest;
      assert r[|r| - |parts[|parts| - 1]|..] == rest[|rest| - |parts[|parts| - 1]|..];
    }
  }

  /** `n` copies of `x`, built by appending one at a time as a loop would. */
  function Repeat<T>(x: T, n: nat): (r: seq<T>)
    ensures |r| == n
    ensures forall i :: 0 <= i < n ==> r[i] == x
  {
    if n == 0 then [] else Repeat(x, n - 1) + [x]
  }

  /** Number of occurrences of the character `c` in `s`. */
  function Count(c: char, s: string): (r: nat)
    ensures r <= |s|
  {
    if s == [] then 0 else (if s[0] == c then 1 else 0) + Count(c, s[1..])
  }

  /** A character that does not occur is counted zero times. */
  lemma {:induction false} CountAbsent(c: char, s: string)
    requires c !in s
    ensures Count(c, s) == 0
  {
    if s != [] {
      assert s[0] != c;
      assert c !in s[1..];
      CountAbsent(c, s[1..]);
    }
  }

  /** Counting distributes over concatenation. */
  lemma {:induction false} CountConcat(c: char, a: string, b: string)
    ensures Count(c, a + b) == Count(c, a) + Count(c, b)
  {
    if a == [] {
      assert a + b == b;
    } else {
      assert (a + b)[1..] == a[1..] + b;
      CountConcat(c, a[1..], b);
    }
  }

  /** A head free of `c` adds nothing to the count. */
  lemma CountAfterAbsent(c: char, head: string, s: string)
    requires c !in head
    ensures Count(c, head + s) == Count(c, s)
  {
    CountAbsent(c, head);
    CountConcat(c, head, s);
  }

  /** Counting over a longer prefix adds the count of the extra stretch. */
  lemma CountTake(c: char, s: string, i: nat, j: nat)
    requires i <= j <= |s|
    ensures Count(c, s[..j]) == Count(c, s[..i]) + Count(c, s[i..j])
  {
    assert s[..j] == s[..i] + s[i..j];
    CountConcat(c, s[..i], s[i..j]);
  }

  /** Counting over the first `|a| + j` characters of `a + b` counts all of `a` and `j` characters of `b`. */
  lemma CountTakeConcat(c: char, a: string, b: string, j: nat)
    requires j <= |b|
    ensures Count(c, (a + b)[..|a| + j]) == Count(c, a) + Count(c, b[..j])
  {
    assert (a + b)[..|a| + j] == a + b[..j];
    CountConcat(c, a, b[..j]);
  }

  /** Joining two non-empty lists is joining each and putting one separator between. */
  lemma {:induction false} JoinConcat(xs: seq<string>, ys: seq<string>, sep: string)
    requires xs != [] && ys != []
    ensures Join(xs + ys, sep) == Join(xs, sep) + sep + Join(ys, sep)
  {
    if |xs| == 1 {
      assert (xs + ys)[1..] == ys;
    } else {
      assert (xs + ys)[1..] == xs[1..] + ys;
      JoinConcat(xs[1..], ys, sep);
    }
  }

  /** Appending copies: `m + n` copies are `m` copies followed by `n` copies. */
  lemma RepeatConcat<T>(x: T, m: nat, n: nat)
    ensures Repeat(x, m + n) == Repeat(x, m) + Repeat(x, n)
  {
  }
}
