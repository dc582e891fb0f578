/** Sequence operations shared by the answer forms: JavaScript's
    `list.filter(x => x !== id)` and the duplicate-freedom it keeps. */
module Seqs {

  /** No element appears twice. */
  predicate Distinct<T(==)>(s: seq<T>) {
    forall i, j :: 0 <= i < j < |s| ==> s[i] != s[j]
  }

  /** `s.filter(x => x !== id)`: every element but `id`, in order. */
  function RemoveAll<T(==,!new)>(s: seq<T>, id: T): (r: seq<T>)
    ensures forall x :: x in r <==> x in s && x != id
    ensures |r| <= |s|
    ensures id !in s ==> r == s
  {
    if s == [] then []
    else (if s[0] == id then [] else [s[0]]) + RemoveAll(s[1..], id)
  }

  /** Filtering distributes over concatenation. */
  lemma {:induction false} RemoveAllAppend<T(!new)>(a: seq<T>, b: seq<T>, id: T)
    ensures RemoveAll(a + b, id) == RemoveAll(a, id) + RemoveAll(b, id)
    decreases |a|
  {
    if a != [] {
      assert (a + b)[1..] == a[1..] + b;
      RemoveAllAppend(a[1..], b, id);
    } else {
      assert a + b == b;
    }
  }

  /** Filtering never introduces a duplicate. */
  lemma {:induction false} RemoveAllKeepsDistinct<T(!new)>(s: seq<T>, id: T)
    requires Distinct(s)
    ensures Distinct(RemoveAll(s, id))
    decreases |s|
  {
    if s != [] {
      RemoveAllKeepsDistinct(s[1..], id);
      var rest := RemoveAll(s[1..], id);
      assert s[0] !in s[1..] by {
        forall k | 0 <= k < |s[1..]| ensures s[1..][k] != s[0] {
          assert s[1..][k] == s[k + 1];
        }
      }
      assert s[0] !in rest;
    }
  }

  /** Appending an element that is not there and filtering it out again
      gives back the list. */
  lemma AppendThenRemove<T(!new)>(s: seq<T>, id: T)
    requires id !in s
    ensures RemoveAll(s + [id], id) == s
  {
    RemoveAllAppend(s, [id], id);
    assert RemoveAll([id], id) == [];
  }
}
