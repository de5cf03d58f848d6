/** `SelectMany(x => x)` over the per-identifier results of a batch: one
    flat list holding each inner list in turn, in submission order. */
module Flattening {

  /** The inner sequences one after another. The result is empty exactly
      when every inner sequence is. */
  function Flatten<T>(xss: seq<seq<T>>): (r: seq<T>)
    ensures r == [] <==> forall i :: 0 <= i < |xss| ==> xss[i] == []
  {
    if xss == [] then [] else xss[0] + Flatten(xss[1..])
  }

  /** Where the records of the i-th identifier start in the flat list. */
  function Offset<T>(xss: seq<seq<T>>, i: nat): (r: nat)
    requires i <= |xss|
  {
    |Flatten(xss[..i])|
  }

  /** Flattening two batches one after the other is the same as
      flattening each and concatenating. */
  lemma {:induction false} FlattenAppend<T>(a: seq<seq<T>>, b: seq<seq<T>>)
    ensures Flatten(a + b) == Flatten(a) + Flatten(b)
  {
    if a != [] {
      assert (a + b)[0] == a[0] && (a + b)[1..] == a[1..] + b;
      FlattenAppend(a[1..], b);
    } else {
      assert a + b == b;
    }
  }

  /** The next identifier's records start right after this one's. */
  lemma {:induction false} FlattenOffsetStep<T>(xss: seq<seq<T>>, i: nat)
    requires i < |xss|
    ensures Offset(xss, i + 1) == Offset(xss, i) + |xss[i]|
  {
    assert xss[..i + 1] == xss[..i] + [xss[i]];
    FlattenAppend(xss[..i], [xss[i]]);
    assert Flatten([xss[i]]) == xss[i] + Flatten([xss[i]][1..]);
    assert [xss[i]][1..] == [];
  }

  /** Each identifier's records appear in the flat list, unchanged and as
      one block, right after the records of every identifier before it. */
  lemma {:induction false} FlattenBlock<T>(xss: seq<seq<T>>, i: nat)
    requires i < |xss|
    ensures Offset(xss, i) + |xss[i]| <= |Flatten(xss)|
    ensures Flatten(xss)[Offset(xss, i)..Offset(xss, i) + |xss[i]|] == xss[i]
  {
    var before, after := xss[..i], xss[i + 1..];
    assert xss == before + ([xss[i]] + after);
    FlattenAppend(before, [xss[i]] + after);
    assert Flatten([xss[i]] + after) == xss[i] + Flatten(after) by {
      assert ([xss[i]] + after)[0] == xss[i] && ([xss[i]] + after)[1..] == after;
    }
    assert Flatten(xss) == Flatten(before) + xss[i] + Flatten(after);
  }

  /** A record is published exactly when some identifier produced it:
      nothing is added and nothing is lost. */
  lemma {:induction false} FlattenMembers<T>(xss: seq<seq<T>>, x: T)
    ensures x in Flatten(xss) <==> exists i :: 0 <= i < |xss| && x in xss[i]
  {
    if xss != [] {
      FlattenMembers(xss[1..], x);
      if x in Flatten(xss[1..]) {
        var i :| 0 <= i < |xss[1..]| && x in xss[1..][i];
        assert x in xss[i + 1];
      }
      if exists i :: 0 <= i < |xss| && x in xss[i] {
        var i :| 0 <= i < |xss| && x in xss[i];
        if i > 0 {
          assert x in xss[1..][i - 1];
        }
      }
    }
  }
}
