/** The two JavaScript array operations the widget relies on, on sequences. */
module Arrays {

  /** `$.inArray(x, a)`: the index of the first occurrence of `x` in `a`, or -1. */
  function InArray<T(==)>(x: T, a: seq<T>): (r: int)
    ensures -1 <= r < |a|
    ensures r == -1 <==> x !in a
    ensures 0 <= r ==> a[r] == x && x !in a[..r]
  {
    if a == [] then -1
    else if a[0] == x then 0
    else
      var k := InArray(x, a[1..]);
      if k == -1 then -1
      else
        assert a[..k + 1] == [a[0]] + a[1..][..k];
        k + 1
  }

  /** `a.splice(pos, 1)` for an index inside `a`: `a` without its element at `pos`,
      the elements after it moved one place down. */
  function Splice1<T>(a: seq<T>, pos: nat): (r: seq<T>)
    requires pos < |a|
    ensures |r| + 1 == |a|
    ensures forall i :: 0 <= i < pos ==> r[i] == a[i]
    ensures forall i :: pos <= i < |r| ==> r[i] == a[i + 1]
  {
    a[..pos] + a[pos + 1..]
  }

  /** No element occurs twice. */
  predicate Distinct<T(==)>(a: seq<T>)
  {
    forall i, j :: 0 <= i < j < |a| ==> a[i] != a[j]
  }

  /** `push` of a new element keeps a sequence duplicate-free. */
  lemma AppendDistinct<T>(a: seq<T>, x: T)
    requires Distinct(a) && x !in a
    ensures Distinct(a + [x])
  {
  }

  /** Splicing one element out loses exactly one occurrence of the removed element
      and nothing else. */
  lemma SpliceContents<T>(a: seq<T>, pos: nat)
    requires pos < |a|
    ensures multiset(Splice1(a, pos)) == multiset(a) - multiset{a[pos]}
  {
    assert a == a[..pos] + [a[pos]] + a[pos + 1..];
  }

  /** Splicing an element out of a duplicate-free sequence leaves a duplicate-free
      sequence holding exactly the other elements. */
  lemma SpliceDistinct<T>(a: seq<T>, pos: nat)
    requires pos < |a| && Distinct(a)
    ensures Distinct(Splice1(a, pos))
    ensures forall t :: t in Splice1(a, pos) <==> t in a && t != a[pos]
  {
    var r := Splice1(a, pos);
    SpliceContents(a, pos);
    forall i, j | 0 <= i < j < |r| ensures r[i] != r[j] {
      var i' := if i < pos then i else i + 1;
      var j' := if j < pos then j else j + 1;
      assert r[i] == a[i'] && r[j] == a[j'] && i' < j';
    }
    forall t ensures t in r <==> t in a && t != a[pos] {
      if t in r {
        var i :| 0 <= i < |r| && r[i] == t;
        var i' := if i < pos then i else i + 1;
        assert a[i'] == t && i' != pos;
      }
      if t in a && t != a[pos] {
        var i :| 0 <= i < |a| && a[i] == t;
        assert i != pos;
        if i < pos { assert r[i] == t; } else { assert r[i - 1] == t; }
      }
    }
  }
}
