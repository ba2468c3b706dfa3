/**
 * Python's `for i in range(0, len(s), size): batch = s[i:i + size]`, the
 * slicing both batch runners use: consecutive slices of `size` items, the
 * last one possibly shorter.
 */
module Batching {
  /** The items of a sequence of batches, in order. */
  function Flatten<T>(bs: seq<seq<T>>): seq<T> {
    if |bs| == 0 then [] else bs[0] + Flatten(bs[1..])
  }

  /** The consecutive slices of `s` of length `size`; the last one holds what is left. */
  function Batches<T>(s: seq<T>, size: nat): (r: seq<seq<T>>)
    requires size > 0
    ensures forall j :: 0 <= j < |r| ==> 0 < |r[j]| <= size
    ensures forall j :: 0 <= j < |r| - 1 ==> |r[j]| == size
    decreases |s|
  {
    if |s| == 0 then []
    else if |s| <= size then [s]
    else
      var rest := Batches(s[size..], size);
      [s[..size]] + rest
  }

  lemma FlattenCons<T>(b: seq<T>, bs: seq<seq<T>>)
    ensures Flatten([b] + bs) == b + Flatten(bs)
  {
    assert ([b] + bs)[1..] == bs;
  }

  lemma FlattenAppend<T>(xs: seq<seq<T>>, ys: seq<seq<T>>)
    ensures Flatten(xs + ys) == Flatten(xs) + Flatten(ys)
  {
    if |xs| == 0 {
      assert xs + ys == ys;
    } else {
      assert (xs + ys)[1..] == xs[1..] + ys;
      FlattenAppend(xs[1..], ys);
    }
  }

  /** Every item is in exactly one batch, in the original order. */
  lemma {:induction false} FlattenBatches<T>(s: seq<T>, size: nat)
    requires size > 0
    ensures Flatten(Batches(s, size)) == s
    decreases |s|
  {
    if |s| == 0 {
    } else if |s| <= size {
      FlattenCons(s, []);
      assert s + [] == s;
    } else {
      FlattenBatches(s[size..], size);
      FlattenCons(s[..size], Batches(s[size..], size));
      assert s[..size] + s[size..] == s;
    }
  }

  /** The batch starting at a step boundary `i` followed by the batches after it. */
  lemma BatchesFrom<T>(s: seq<T>, size: nat, i: nat)
    requires size > 0 && i < |s|
    ensures Batches(s[i..], size)
         == [s[i..if i + size <= |s| then i + size else |s|]]
            + Batches(s[if i + size <= |s| then i + size else |s|..], size)
  {
    var t := s[i..];
    if |t| <= size {
      assert t == s[i..|s|];
      assert s[|s|..] == [];
    } else {
      assert t[..size] == s[i..i + size];
      assert t[size..] == s[i + size..];
    }
  }
}
