/** Sequence operations the scraper performs through JavaScript's array
    methods: `.flat()`, `.filter(...)` and `.join(sep)`. */
module Seqs {

  /** `.flat()` of an array of arrays: the blocks one after another. */
  function Flatten<T>(blocks: seq<seq<T>>): seq<T>
  {
    if blocks == [] then [] else blocks[0] + Flatten(blocks[1..])
  }

  /** The sum of the blocks' lengths. */
  function TotalLength<T>(blocks: seq<seq<T>>): nat
  {
    if blocks == [] then 0 else |blocks[0]| + TotalLength(blocks[1..])
  }

  lemma {:induction false} FlattenLength<T>(blocks: seq<seq<T>>)
    ensures |Flatten(blocks)| == TotalLength(blocks)
  {
    if blocks != [] {
      FlattenLength(blocks[1..]);
    }
  }

  lemma {:induction false} FlattenAppend<T>(a: seq<seq<T>>, b: seq<seq<T>>)
    ensures Flatten(a + b) == Flatten(a) + Flatten(b)
  {
    if a == [] {
      assert a + b == b;
    } else {
      assert (a + b)[1..] == a[1..] + b;
      FlattenAppend(a[1..], b);
    }
  }

  /** Flattening one more block appends it. */
  lemma FlattenSnoc<T>(blocks: seq<seq<T>>, last: seq<T>)
    ensures Flatten(blocks + [last]) == Flatten(blocks) + last
  {
    FlattenAppend(blocks, [last]);
    assert Flatten([last]) == last + Flatten([last][1..]);
  }

  /** Block i of the input occupies, in order, the positions of the result
      that follow all earlier blocks. */
  lemma {:induction false} FlattenBlock<T>(blocks: seq<seq<T>>, i: nat, k: nat)
    requires i < |blocks| && k < |blocks[i]|
    ensures TotalLength(blocks[..i]) + k < |Flatten(blocks)|
    ensures Flatten(blocks)[TotalLength(blocks[..i]) + k] == blocks[i][k]
  {
    FlattenLength(blocks);
    if i == 0 {
      assert blocks[..0] == [];
    } else {
      assert blocks[..i][1..] == blocks[1..][..i - 1];
      FlattenBlock(blocks[1..], i - 1, k);
      FlattenLength(blocks[1..]);
    }
  }

  /** `.filter(keep)`: the elements that pass, in their original order. */
  function Filter<T>(s: seq<T>, keep: T -> bool): (r: seq<T>)
    ensures |r| <= |s|
    ensures forall i :: 0 <= i < |r| ==> keep(r[i]) && r[i] in s
    ensures forall i :: 0 <= i < |s| && keep(s[i]) ==> s[i] in r
  {
    if s == [] then []
    else if keep(s[0]) then [s[0]] + Filter(s[1..], keep)
    else Filter(s[1..], keep)
  }

  /** Filtering distributes over concatenation, so relative order is kept. */
  lemma {:induction false} FilterAppend<T>(a: seq<T>, b: seq<T>, keep: T -> bool)
    ensures Filter(a + b, keep) == Filter(a, keep) + Filter(b, keep)
  {
    if a == [] {
      assert a + b == b;
    } else {
      assert (a + b)[1..] == a[1..] + b;
      FilterAppend(a[1..], b, keep);
    }
  }

  /** Filtering keeps everything exactly when every element passes. */
  lemma {:induction false} FilterKeepsAll<T>(s: seq<T>, keep: T -> bool)
    ensures Filter(s, keep) == s <==> forall i :: 0 <= i < |s| ==> keep(s[i])
  {
    if s != [] {
      FilterKeepsAll(s[1..], keep);
      if !keep(s[0]) {
        assert |Filter(s, keep)| < |s| by {
          assert Filter(s, keep) == Filter(s[1..], keep);
        }
      } else {
        assert forall i :: 1 <= i < |s| ==> s[i] == s[1..][i - 1];
      }
    }
  }

  /** Filtering twice with the same test filters once. */
  lemma FilterIdempotent<T>(s: seq<T>, keep: T -> bool)
    ensures Filter(Filter(s, keep), keep) == Filter(s, keep)
  {
    FilterKeepsAll(Filter(s, keep), keep);
  }

  /** `.join(sep)`: the parts with `sep` between neighbours. */
  function Join<T>(parts: seq<seq<T>>, sep: seq<T>): seq<T>
  {
    if parts == [] then []
    else if |parts| == 1 then parts[0]
    else parts[0] + sep + Join(parts[1..], sep)
  }

  /** Joining n parts inserts n - 1 separators and nothing else. */
  lemma {:induction false} JoinLength<T>(parts: seq<seq<T>>, sep: seq<T>)
    requires parts != []
    ensures |Join(parts, sep)| == TotalLength(parts) + (|parts| - 1) * |sep|
  {
    if |parts| > 1 {
      JoinLength(parts[1..], sep);
    } else {
      assert parts[1..] == [];
    }
  }
}
