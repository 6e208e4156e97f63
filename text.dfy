/**
 * The Python string operations the UDF builders use: `sep.join(xs)` and
 * `s.replace(old, new)`, plus `s.split(sep)` and a character count, which
 * state what the first two produce.
 */
module Text {

  /** Python's `sep.join(xs)`: the items of `xs` with `sep` between neighbours. */
  function Join(sep: string, xs: seq<string>): string
  {
    if |xs| == 0 then ""
    else if |xs| == 1 then xs[0]
    else xs[0] + sep + Join(sep, xs[1..])
  }

  /** Dropping the first character of a concatenation drops it from the left part. */
  lemma DropFirst(a: string, b: string)
    requires |a| > 0
    ensures (a + b)[1..] == a[1..] + b
  {
  }

  /**
   * Python's `s.split(sep)` for a non-empty separator: the pieces between
   * the occurrences of `sep`, found left to right without overlap.
   */
  function Split(s: string, sep: string): (r: seq<string>)
    requires |sep| > 0
    ensures |r| > 0
    decreases |s|
  {
    if |s| < |sep| then [s]
    else if s[..|sep|] == sep then [""] + Split(s[|sep|..], sep)
    else
      var rest := Split(s[1..], sep);
      [[s[0]] + rest[0]] + rest[1..]
  }

  /**
   * Python's `s.replace(pat, rep)` for a non-empty pattern: every occurrence
   * of `pat`, found left to right without overlap, becomes `rep`.
   */
  function Replace(s: string, pat: string, rep: string): string
    requires |pat| > 0
    decreases |s|
  {
    if |s| < |pat| then s
    else if s[..|pat|] == pat then rep + Replace(s[|pat|..], pat, rep)
    else [s[0]] + Replace(s[1..], pat, rep)
  }

  /** Python's `s.count(c)` for a single character. */
  function Count(s: string, c: char): nat
  {
    if s == [] then 0
    else (if s[0] == c then 1 else 0) + Count(s[1..], c)
  }

  /** Splitting `x + t` where `x` holds no character that starts `sep`: `x` is glued to the first piece of `t`. */
  lemma {:induction false} SplitAfterFreeText(x: string, t: string, sep: string)
    requires |sep| > 0 && sep[0] !in x
    ensures Split(x + t, sep) == [x + Split(t, sep)[0]] + Split(t, sep)[1..]
    decreases |x|
  {
    if x == [] {
      var r := Split(t, sep);
      calc {
        Split(x + t, sep);
        { assert x + t == t; }
        r;
        [r[0]] + r[1..];
        { assert x + r[0] == r[0]; }
        [x + r[0]] + r[1..];
      }
    } else {
      var s := x + t;
      assert s[1..] == x[1..] + t;
      SplitAfterFreeText(x[1..], t, sep);
      if |s| < |sep| {
        assert Split(t, sep) == [t];
        assert Split(x[1..] + t, sep) == [x[1..] + t];
      } else {
        assert s[..|sep|][0] == x[0] != sep[0];
        assert [x[0]] + (x[1..] + Split(t, sep)[0]) == x + Split(t, sep)[0];
      }
    }
  }

  /**
   * `split` undoes `join` when no item holds the separator's first character
   * (and there is at least one item: `"".split(sep)` is `[""]`).
   */
  lemma {:induction false} SplitJoin(sep: string, xs: seq<string>)
    requires |sep| > 0 && |xs| > 0
    requires forall i :: 0 <= i < |xs| ==> sep[0] !in xs[i]
    ensures Split(Join(sep, xs), sep) == xs
    decreases |xs|
  {
    if |xs| == 1 {
      SplitAfterFreeText(xs[0], "", sep);
      assert xs[0] + "" == xs[0];
    } else {
      var rest := Join(sep, xs[1..]);
      assert Join(sep, xs) == xs[0] + (sep + rest);
      SplitAfterFreeText(xs[0], sep + rest, sep);
      assert (sep + rest)[..|sep|] == sep;
      assert (sep + rest)[|sep|..] == rest;
      var pieces := Split(sep + rest, sep);
      assert pieces == [""] + Split(rest, sep);
      assert pieces[0] == "" && pieces[1..] == Split(rest, sep);
      assert xs[0] + "" == xs[0];
      SplitJoin(sep, xs[1..]);
      assert xs == [xs[0]] + xs[1..];
    }
  }
}
