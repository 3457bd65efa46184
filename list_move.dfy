/** The single-element list move shared by the store's reorder action and the
    drag-and-drop helper: copy the list, `splice(from, 1)` to take the moved
    element out, then `splice(to, 0, moved)` to put it back in. */
module ListMove {

  /** `s` without its element at index `i` (JavaScript's `splice(i, 1)`). */
  function RemoveAt<T>(s: seq<T>, i: nat): (r: seq<T>)
    requires i < |s|
    ensures |r| == |s| - 1
    ensures forall k :: 0 <= k < i ==> r[k] == s[k]
    ensures forall k :: i <= k < |r| ==> r[k] == s[k + 1]
  {
    s[..i] + s[i + 1..]
  }

  /** The list after moving the element at `from` so that it sits at `to`. */
  function Move<T>(s: seq<T>, from: nat, to: nat): (r: seq<T>)
    requires from < |s| && to < |s|
    ensures |r| == |s|
    ensures r[to] == s[from]
  {
    var rest := RemoveAt(s, from);
    rest[..to] + [s[from]] + rest[to..]
  }

  /** The input index whose element a move places at output index `k`:
      the moved element lands at `to`, the elements between the two
      positions shift by one towards `from`, all others stay put. */
  function MoveSource(from: nat, to: nat, k: nat): nat {
    if k == to then from
    else if from < to && from <= k < to then k + 1
    else if to < from && to < k <= from then k - 1
    else k
  }

  /** Every output position holds the element of its source position, and
      distinct output positions come from distinct input positions. */
  lemma MoveAt<T>(s: seq<T>, from: nat, to: nat, k: nat)
    requires from < |s| && to < |s| && k < |s|
    ensures MoveSource(from, to, k) < |s|
    ensures Move(s, from, to)[k] == s[MoveSource(from, to, k)]
  {
    var rest := RemoveAt(s, from);
    var r := Move(s, from, to);
    if k < to {
      assert r[k] == rest[k];
    } else if k > to {
      assert r[k] == rest[k - 1];
    }
  }

  lemma MoveSourceInjective(from: nat, to: nat, k1: nat, k2: nat)
    requires k1 != k2
    ensures MoveSource(from, to, k1) != MoveSource(from, to, k2)
  {
  }

  /** A move is a permutation: the same elements, each as often as before. */
  lemma MovePermutes<T>(s: seq<T>, from: nat, to: nat)
    requires from < |s| && to < |s|
    ensures multiset(Move(s, from, to)) == multiset(s)
  {
    var rest := RemoveAt(s, from);
    assert s == s[..from] + [s[from]] + s[from + 1..];
    assert rest == rest[..to] + rest[to..];
    calc {
      multiset(Move(s, from, to));
      multiset(rest[..to]) + multiset([s[from]]) + multiset(rest[to..]);
      multiset(rest) + multiset([s[from]]);
      multiset(s[..from]) + multiset(s[from + 1..]) + multiset([s[from]]);
      multiset(s);
    }
  }

  /** The moved element ends at `to`, and removing it from both lists leaves
      the same list: every other element keeps its relative order. */
  lemma MoveKeepsRelativeOrder<T>(s: seq<T>, from: nat, to: nat)
    requires from < |s| && to < |s|
    ensures Move(s, from, to)[to] == s[from]
    ensures RemoveAt(Move(s, from, to), to) == RemoveAt(s, from)
  {
    var rest := RemoveAt(s, from);
    var r := Move(s, from, to);
    assert r[..to] == rest[..to];
    assert r[to + 1..] == rest[to..];
    assert rest == rest[..to] + rest[to..];
  }

  /** Moving an element onto its own position changes nothing. */
  lemma MoveToSelf<T>(s: seq<T>, i: nat)
    requires i < |s|
    ensures Move(s, i, i) == s
  {
    assert s == s[..i] + [s[i]] + s[i + 1..];
  }

  /** The worked example: moving the first of four elements to index 2. */
  lemma MoveExample()
    ensures Move(['A', 'B', 'C', 'D'], 0, 2) == ['B', 'C', 'A', 'D']
  {
    var s := ['A', 'B', 'C', 'D'];
    assert RemoveAt(s, 0) == ['B', 'C', 'D'];
  }
}
