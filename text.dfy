/** The string operations the bot relies on: substring containment,
    Python's `sep.join(xs)`, and splitting a string at a separator character. */
module Text {

  /** `sub` occurs in `s` starting at index `i`. */
  ghost predicate OccursAt(s: string, sub: string, i: int) {
    0 <= i <= |s| - |sub| && s[i..i + |sub|] == sub
  }

  /** `sub` occurs in `s` as a contiguous run of characters. */
  ghost predicate Contains(s: string, sub: string) {
    exists i :: OccursAt(s, sub, i)
  }

  lemma ContainsSelf(s: string)
    ensures Contains(s, s)
  {
    assert OccursAt(s, s, 0);
  }

  lemma ContainsAfterPrefix(p: string, s: string, sub: string)
    requires Contains(s, sub)
    ensures Contains(p + s, sub)
  {
    var i :| OccursAt(s, sub, i);
    assert (p + s)[|p| + i..|p| + i + |sub|] == s[i..i + |sub|];
    assert OccursAt(p + s, sub, |p| + i);
  }

  lemma ContainsBeforeSuffix(s: string, q: string, sub: string)
    requires Contains(s, sub)
    ensures Contains(s + q, sub)
  {
    var i :| OccursAt(s, sub, i);
    assert (s + q)[i..i + |sub|] == s[i..i + |sub|];
    assert OccursAt(s + q, sub, i);
  }

  lemma ContainsTransitive(s: string, mid: string, sub: string)
    requires Contains(s, mid) && Contains(mid, sub)
    ensures Contains(s, sub)
  {
    var i :| OccursAt(s, mid, i);
    var j :| OccursAt(mid, sub, j);
    forall t | 0 <= t < |sub|
      ensures s[i + j + t] == sub[t]
    {
      assert sub[t] == mid[j..j + |sub|][t] == mid[j + t];
      assert mid[j + t] == s[i..i + |mid|][j + t] == s[i + j + t];
    }
    assert s[i + j..i + j + |sub|] == sub;
    assert OccursAt(s, sub, i + j);
  }

  /** Python's `sep.join(xs)`: the empty string for no items, otherwise the
      items in order with `sep` between neighbours. */
  function Join(sep: string, xs: seq<string>): string {
    if |xs| == 0 then ""
    else if |xs| == 1 then xs[0]
    else xs[0] + sep + Join(sep, xs[1..])
  }

  /** Every item of a join occurs in the joined string. */
  lemma {:induction false} JoinContainsEach(sep: string, xs: seq<string>, k: nat)
    requires k < |xs|
    ensures Contains(Join(sep, xs), xs[k])
  {
    if |xs| == 1 {
      ContainsSelf(xs[0]);
    } else if k == 0 {
      ContainsSelf(xs[0]);
      ContainsBeforeSuffix(xs[0], sep, xs[0]);
      ContainsBeforeSuffix(xs[0] + sep, Join(sep, xs[1..]), xs[0]);
    } else {
      JoinContainsEach(sep, xs[1..], k - 1);
      ContainsAfterPrefix(xs[0] + sep, Join(sep, xs[1..]), xs[k]);
    }
  }

  /** Every item of a join, all at once. */
  lemma JoinContainsAll(sep: string, xs: seq<string>)
    ensures forall k :: 0 <= k < |xs| ==> Contains(Join(sep, xs), xs[k])
  {
    forall k | 0 <= k < |xs|
      ensures Contains(Join(sep, xs), xs[k])
    {
      JoinContainsEach(sep, xs, k);
    }
  }

  /** Splits `s` at every occurrence of `c`, like Python's `s.split(c)`:
      `n` separators give `n + 1` parts, empty parts included. */
  function Split(s: string, c: char): (parts: seq<string>)
    ensures |parts| >= 1
  {
    if |s| == 0 then [""]
    else
      var rest := Split(s[1..], c);
      if s[0] == c then [""] + rest else [[s[0]] + rest[0]] + rest[1..]
  }

  lemma {:induction false} SplitWithoutSeparator(a: string, c: char)
    requires c !in a
    ensures Split(a, c) == [a]
  {
    if |a| > 0 {
      SplitWithoutSeparator(a[1..], c);
      assert [a[0]] + a[1..] == a;
    }
  }

  /** Splitting stops at the first separator and carries on after it. */
  lemma {:induction false} SplitAtFirst(a: string, c: char, b: string)
    requires c !in a
    ensures Split(a + [c] + b, c) == [a] + Split(b, c)
  {
    var s := a + [c] + b;
    if |a| == 0 {
      assert s == [c] + b;
      assert s[1..] == b;
    } else {
      assert s[1..] == a[1..] + [c] + b;
      SplitAtFirst(a[1..], c, b);
      assert [a[0]] + a[1..] == a;
    }
  }

  /** Joining with a one-character separator and splitting at that
      character gives the items back, when no item contains it. */
  lemma {:induction false} SplitJoin(xs: seq<string>, c: char)
    requires |xs| >= 1
    requires forall k :: 0 <= k < |xs| ==> c !in xs[k]
    ensures Split(Join([c], xs), c) == xs
  {
    if |xs| == 1 {
      SplitWithoutSeparator(xs[0], c);
    } else {
      SplitJoin(xs[1..], c);
      SplitAtFirst(xs[0], c, Join([c], xs[1..]));
      assert [xs[0]] + xs[1..] == xs;
    }
  }

  /** Each item but the first, with a leading space: the parts that
      splitting a `", "`-join at the comma yields after the first. */
  function Indented(xs: seq<string>): (r: seq<string>)
    ensures |r| == |xs|
  {
    seq(|xs|, k requires 0 <= k < |xs| => " " + xs[k])
  }

  /** Splitting `p` followed by a `", "`-join at the comma gives `p` glued to
      the first item and then the other items, each with its leading space. */
  lemma {:induction false} SplitCommaJoin(p: string, xs: seq<string>)
    requires |xs| >= 1
    requires ',' !in p
    requires forall k :: 0 <= k < |xs| ==> ',' !in xs[k]
    ensures Split(p + Join(", ", xs), ',') == [p + xs[0]] + Indented(xs[1..])
    decreases |xs|
  {
    if |xs| == 1 {
      SplitWithoutSeparator(p + xs[0], ',');
    } else {
      var rest := Join(", ", xs[1..]);
      assert p + Join(", ", xs) == (p + xs[0]) + [','] + (" " + rest);
      SplitAtFirst(p + xs[0], ',', " " + rest);
      SplitCommaJoin(" ", xs[1..]);
      assert [" " + xs[1]] + Indented(xs[2..]) == Indented(xs[1..]);
    }
  }
}
