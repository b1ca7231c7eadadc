/** Option and Result values for the places where the bot's Python code can
    produce nothing or raise. */
module Wrappers {

  datatype Option<+T> = None | Some(value: T)

  datatype Result<+T, +E> = Success(value: T) | Failure(error: E)

  function Min(a: int, b: int): int {
    if a <= b then a else b
  }
}

/** Facts about taking and dropping sequence elements, stated once so that
    proofs about large sequence-valued functions can cite them instead of
    re-deriving them by extensionality. */
module Seqs {

  lemma TakeDrop<T>(s: seq<T>, k: nat)
    requires k <= |s|
    ensures s == s[..k] + s[k..]
  {
  }

  lemma TakeAll<T>(s: seq<T>)
    ensures s[..|s|] == s
  {
  }

  lemma DropOne<T>(s: seq<T>, k: nat)
    requires k < |s|
    ensures s[k..][0] == s[k] && s[k..][1..] == s[k + 1..]
  {
  }

  lemma AppendAssociative<T>(a: seq<T>, b: seq<T>, c: seq<T>)
    ensures a + b + c == a + (b + c)
  {
  }

  lemma AppendAssociativeTail<T>(a: seq<T>, b: seq<T>, c: seq<T>, d: seq<T>, e: seq<T>)
    ensures a + b + c + d + e == a + (b + c + d + e)
  {
  }

  lemma AppendFirst<T>(a: seq<T>, c: seq<T>)
    requires |a| > 0
    ensures (a + c)[0] == a[0] && (a + c)[1..] == a[1..] + c
  {
  }

  lemma EmptyAppend<T>(a: seq<T>, c: seq<T>)
    requires |a| == 0
    ensures a + c == c
  {
  }

  /** The blocks of `blocks` one after the other. */
  function Concat<T>(blocks: seq<seq<T>>): seq<T> {
    if |blocks| == 0 then [] else blocks[0] + Concat(blocks[1..])
  }

  lemma {:induction false} ConcatAppend<T>(x: seq<seq<T>>, y: seq<seq<T>>)
    ensures Concat(x + y) == Concat(x) + Concat(y)
  {
    if |x| > 0 {
      AppendFirst(x, y);
      ConcatAppend(x[1..], y);
    } else {
      EmptyAppend(x, y);
    }
  }

  lemma ConcatSingle<T>(s: seq<T>)
    ensures Concat([s]) == s
  {
    assert [s][1..] == [];
  }

  lemma ConcatSnoc<T>(x: seq<seq<T>>, s: seq<T>)
    ensures Concat(x + [s]) == Concat(x) + s
  {
    ConcatAppend(x, [s]);
    ConcatSingle(s);
  }

  /** Blocks of `n` elements each give `n` elements per block. */
  lemma {:induction false} ConcatLength<T>(x: seq<seq<T>>, n: nat)
    requires forall k :: 0 <= k < |x| ==> |x[k]| == n
    ensures |Concat(x)| == n * |x|
  {
    if |x| > 0 {
      ConcatLength(x[1..], n);
    }
  }

  /** `Concat(x)` around block `k`: the blocks before it, block `k`, then
      the blocks after it. */
  lemma ConcatSplit<T>(x: seq<seq<T>>, k: nat)
    requires k < |x|
    ensures Concat(x) == Concat(x[..k]) + (x[k] + Concat(x[k + 1..]))
  {
    TakeDrop(x, k);
    ConcatAppend(x[..k], x[k..]);
    DropOne(x, k);
    assert Concat(x[k..]) == x[k] + Concat(x[k + 1..]);
  }

  /** Block `k` sits in `Concat(x)` right after the blocks before it. */
  lemma ConcatBlockAt<T>(x: seq<seq<T>>, k: nat)
    requires k < |x|
    ensures |Concat(x[..k])| + |x[k]| <= |Concat(x)|
    ensures Concat(x)[|Concat(x[..k])|..|Concat(x[..k])| + |x[k]|] == x[k]
  {
    ConcatSplit(x, k);
    MiddleSlice(Concat(x[..k]), x[k], Concat(x[k + 1..]));
  }

  lemma MiddleSlice<T>(a: seq<T>, b: seq<T>, c: seq<T>)
    ensures (a + (b + c))[|a|..|a| + |b|] == b
  {
    assert (a + (b + c))[|a|..|a| + |b|] == (b + c)[..|b|];
  }
}
