/** The generic linked list: sorted by a comparison function, with no two equal elements. */
module Lists {
  import opened Nodes

  /** The comparison orders its arguments: antisymmetric and transitive. */
  ghost predicate Order<T(!new)>(cmp: (T, T) -> int) {
    && (forall a, b :: cmp(a, b) < 0 <==> cmp(b, a) > 0)
    && (forall a, b, c :: cmp(a, b) < 0 && cmp(b, c) < 0 ==> cmp(a, c) < 0)
  }

  ghost predicate Sorted<T>(cmp: (T, T) -> int, c: seq<T>) {
    forall i, j :: 0 <= i < j < |c| ==> cmp(c[i], c[j]) < 0
  }

  /** `k` leading elements compare below `x`, and the next one, if any, does not. */
  ghost predicate IsRank<T>(cmp: (T, T) -> int, c: seq<T>, x: T, k: nat) {
    && k <= |c|
    && (forall i :: 0 <= i < k ==> cmp(c[i], x) < 0)
    && (k < |c| ==> cmp(c[k], x) >= 0)
  }

  function Rank<T>(cmp: (T, T) -> int, c: seq<T>, x: T): (k: nat)
    ensures IsRank(cmp, c, x, k)
  {
    if c == [] || cmp(c[0], x) >= 0 then 0 else 1 + Rank(cmp, c[1..], x)
  }

  lemma RankIsUnique<T>(cmp: (T, T) -> int, c: seq<T>, x: T, k: nat)
    requires IsRank(cmp, c, x, k)
    ensures k == Rank(cmp, c, x)
  {
    assert IsRank(cmp, c, x, Rank(cmp, c, x));
  }

  /** The list with `x` put before the first larger element, unless an equal one is there. */
  function Inserted<T>(cmp: (T, T) -> int, c: seq<T>, x: T): seq<T> {
    var k := Rank(cmp, c, x);
    if k < |c| && cmp(c[k], x) == 0 then c else Spliced(c, k, x)
  }

  function Spliced<T>(c: seq<T>, k: nat, x: T): seq<T>
    requires k <= |c|
  {
    c[..k] + [x] + c[k..]
  }

  lemma SplicedAt<T>(c: seq<T>, k: nat, x: T, i: nat)
    requires k <= |c| && i <= |c|
    ensures Spliced(c, k, x)[i] == if i < k then c[i] else if i == k then x else c[i - 1]
  {
  }

  /** `k` leading elements differ from `x`, and the next one, if any, does not. */
  ghost predicate IsPosition<T>(cmp: (T, T) -> int, c: seq<T>, x: T, k: nat) {
    && k <= |c|
    && (forall i :: 0 <= i < k ==> cmp(c[i], x) != 0)
    && (k < |c| ==> cmp(c[k], x) == 0)
  }

  function Position<T>(cmp: (T, T) -> int, c: seq<T>, x: T): (k: nat)
    ensures IsPosition(cmp, c, x, k)
  {
    if c == [] || cmp(c[0], x) == 0 then 0 else 1 + Position(cmp, c[1..], x)
  }

  lemma PositionIsUnique<T>(cmp: (T, T) -> int, c: seq<T>, x: T, k: nat)
    requires IsPosition(cmp, c, x, k)
    ensures k == Position(cmp, c, x)
  {
    assert IsPosition(cmp, c, x, Position(cmp, c, x));
  }

  function Without<T>(c: seq<T>, k: nat): seq<T>
    requires k < |c|
  {
    c[..k] + c[k + 1..]
  }

  /** The list without the first element equal to `x`. */
  function Removed<T>(cmp: (T, T) -> int, c: seq<T>, x: T): seq<T> {
    var k := Position(cmp, c, x);
    if k < |c| then Without(c, k) else c
  }

  lemma InsertedIsSorted<T(!new)>(cmp: (T, T) -> int, c: seq<T>, x: T)
    requires Order(cmp) && Sorted(cmp, c)
    ensures Sorted(cmp, Inserted(cmp, c, x))
  {
    var k := Rank(cmp, c, x);
    if k == |c| || cmp(c[k], x) != 0 {
      forall i | k <= i < |c| ensures cmp(x, c[i]) < 0 {
        assert cmp(x, c[k]) < 0;
      }
      SplicedIsSorted(cmp, c, x, k);
    }
  }

  lemma SplicedIsSorted<T>(cmp: (T, T) -> int, c: seq<T>, x: T, k: nat)
    requires Sorted(cmp, c) && k <= |c|
    requires forall i :: 0 <= i < k ==> cmp(c[i], x) < 0
    requires forall i :: k <= i < |c| ==> cmp(x, c[i]) < 0
    ensures Sorted(cmp, Spliced(c, k, x))
  {
    var d := Spliced(c, k, x);
    forall i, j | 0 <= i < j < |d| ensures cmp(d[i], d[j]) < 0 {
      assert i < k ==> d[i] == c[i];
      assert i > k ==> d[i] == c[i - 1];
      assert j < k ==> d[j] == c[j];
      assert j > k ==> d[j] == c[j - 1];
    }
  }

  ghost predicate Distinct<T>(s: seq<T>) {
    forall i, j :: 0 <= i < j < |s| ==> s[i] != s[j]
  }

  lemma SplicedIsDistinct<T>(s: seq<T>, k: nat, x: T)
    requires Distinct(s) && k <= |s| && x !in s
    ensures Distinct(Spliced(s, k, x))
    ensures forall i :: 0 <= i < k ==> Spliced(s, k, x)[i] == s[i]
    ensures forall i :: k < i <= |s| ==> Spliced(s, k, x)[i] == s[i - 1]
    ensures forall y <- Spliced(s, k, x) :: y in s || y == x
  {
    var d := Spliced(s, k, x);
    assert forall i :: 0 <= i < k ==> d[i] == s[i];
    assert forall i :: k < i < |d| ==> d[i] == s[i - 1];
  }

  lemma WithoutIsDistinct<T>(s: seq<T>, k: nat)
    requires Distinct(s) && k < |s|
    ensures Distinct(Without(s, k))
    ensures forall i :: 0 <= i < k ==> Without(s, k)[i] == s[i]
    ensures forall i :: k <= i < |s| - 1 ==> Without(s, k)[i] == s[i + 1]
    ensures forall x <- Without(s, k) :: x in s
  {
    var d := Without(s, k);
    assert forall i :: 0 <= i < k ==> d[i] == s[i];
    assert forall i :: k <= i < |d| ==> d[i] == s[i + 1];
  }

  lemma WithoutIsSorted<T>(cmp: (T, T) -> int, c: seq<T>, k: nat)
    requires Sorted(cmp, c) && k < |c|
    ensures Sorted(cmp, Without(c, k))
  {
    var d := Without(c, k);
    forall i | 0 <= i < |d| ensures d[i] == c[if i < k then i else i + 1] {
    }
  }

  lemma NthSpliced<T>(nodes: seq<Node<T>>, k: nat, x: Node<T>, i: nat)
    requires k <= |nodes|
    ensures Nth(Spliced(nodes, k, x), i) == if i < k then Nth(nodes, i) else if i == k then x else Nth(nodes, i - 1)
  {
  }

  lemma NthWithout<T>(nodes: seq<Node<T>>, k: nat, i: nat)
    requires k < |nodes|
    ensures Nth(Without(nodes, k), i) == if i < k then Nth(nodes, i) else Nth(nodes, i + 1)
  {
  }

  class List<T> {
    const cmp: (T, T) -> int
    var head: Node?<T>
    var iter: Node?<T>
    var size: nat
    /** The nodes from the head on, and what they hold. */
    ghost var spine: seq<Node<T>>
    ghost var contents: seq<T>

    ghost predicate Valid()
      reads this, spine
    {
      && size == |spine| == |contents|
      && head == Nth(spine, 0)
      && (forall i :: 0 <= i < |spine| ==> spine[i].next == Nth(spine, i + 1))
      && (forall i :: 0 <= i < |spine| ==> spine[i].data == contents[i])
      && Distinct(spine)
    }

    constructor (cmp: (T, T) -> int)
      ensures Valid() && this.cmp == cmp && contents == [] && spine == []
    {
      this.cmp := cmp;
      head, iter, size, spine, contents := null, null, 0, [], [];
    }

    method Add(data: T)
      requires Valid()
      modifies this, spine
      ensures Valid() && contents == Inserted(cmp, old(contents), data)
      ensures forall n <- spine :: n in old(spine) || fresh(n)
    {
      var prev: Node?<T> := null;
      var curr := head;
      ghost var k := 0;
      while curr != null && cmp(curr.data, data) < 0
        invariant k <= |spine| && curr == Nth(spine, k) && prev == Nth(spine, k - 1)
        invariant forall i :: 0 <= i < k ==> cmp(contents[i], data) < 0
        decreases |spine| - k
      {
        prev := curr;
        curr := curr.next;
        k := k + 1;
      }
      RankIsUnique(cmp, contents, data, k);
      if curr != null && cmp(curr.data, data) == 0 {
        return;
      }
      Link(data, prev, curr, k);
    }

    /** A new node for `data` between two neighbours. */
    method Link(data: T, prev: Node?<T>, curr: Node?<T>, ghost k: nat)
      requires Valid() && k <= |spine| && curr == Nth(spine, k) && prev == Nth(spine, k - 1)
      modifies this, spine
      ensures Valid() && contents == Spliced(old(contents), k, data)
      ensures forall n <- spine :: n in old(spine) || fresh(n)
    {
      var aux := new Node(data, curr);
      SplicedIsDistinct(spine, k, aux);
      if curr == head {
        assert k == 0;
        LinkFirst(aux);
      } else {
        LinkAfter(prev, aux, k);
      }
    }

    method LinkFirst(aux: Node<T>)
      requires Valid() && aux !in spine && aux.next == head
      modifies this
      ensures Valid() && contents == Spliced(old(contents), 0, aux.data) && spine == Spliced(old(spine), 0, aux)
    {
      head := aux;
      spine := Spliced(spine, 0, aux);
      contents := Spliced(contents, 0, aux.data);
      size := size + 1;
    }

    method LinkAfter(prev: Node<T>, aux: Node<T>, ghost k: nat)
      requires Valid() && 0 < k <= |spine| && prev == spine[k - 1]
      requires aux !in spine && aux.next == prev.next
      modifies this, prev
      ensures Valid() && contents == Spliced(old(contents), k, aux.data) && spine == Spliced(old(spine), k, aux)
    {
      prev.next := aux;
      ghost var was, had := spine, contents;
      SplicedIsDistinct(was, k, aux);
      spine := Spliced(was, k, aux);
      contents := Spliced(had, k, aux.data);
      size := size + 1;
      forall i | 0 <= i < |spine| ensures spine[i].next == Nth(spine, i + 1) && spine[i].data == contents[i] {
        NthSpliced(was, k, aux, i);
        NthSpliced(was, k, aux, i + 1);
        SplicedAt(had, k, aux.data, i);
      }
    }

    method Remove(data: T)
      requires Valid()
      modifies this, spine
      ensures Valid() && contents == Removed(cmp, old(contents), data)
      ensures forall n <- spine :: n in old(spine)
    {
      var tmp := head;
      var prev: Node?<T> := null;
      ghost var k := 0;
      while tmp != null
        invariant unchanged(this) && unchanged(spine)
        invariant k <= |spine| && tmp == Nth(spine, k) && prev == Nth(spine, k - 1)
        invariant forall i :: 0 <= i < k ==> cmp(contents[i], data) != 0
        decreases |spine| - k
      {
        if cmp(tmp.data, data) == 0 {
          PositionIsUnique(cmp, contents, data, k);
          WithoutIsDistinct(spine, k);
          if prev == null {
            UnlinkFirst();
          } else {
            UnlinkAfter(prev, tmp, k);
          }
          return;
        }
        prev := tmp;
        tmp := tmp.next;
        k := k + 1;
      }
      PositionIsUnique(cmp, contents, data, k);
    }

    method UnlinkFirst()
      requires Valid() && 0 < |spine|
      modifies this
      ensures Valid() && contents == Without(old(contents), 0) && spine == Without(old(spine), 0)
    {
      head := head.next;
      spine := Without(spine, 0);
      contents := Without(contents, 0);
      size := size - 1;
    }

    method UnlinkAfter(prev: Node<T>, tmp: Node<T>, ghost k: nat)
      requires Valid() && 0 < k < |spine| && prev == spine[k - 1] && tmp == spine[k]
      modifies this, prev
      ensures Valid() && contents == Without(old(contents), k) && spine == Without(old(spine), k)
    {
      prev.next := tmp.next;
      ghost var was := spine;
      WithoutIsDistinct(was, k);
      spine := Without(was, k);
      contents := Without(contents, k);
      size := size - 1;
      forall i | 0 <= i < |spine| ensures spine[i].next == Nth(spine, i + 1) {
        NthWithout(was, k, i);
        NthWithout(was, k, i + 1);
      }
    }

    method BeginIter()
      modifies this`iter
      ensures iter == head
    {
      iter := head;
    }

    /** The node under the iterator, which moves on. */
    method GetNext() returns (n: Node<T>)
      requires iter != null
      modifies this`iter
      ensures n == old(iter) && iter == n.next
    {
      n := iter;
      iter := iter.next;
    }
  }
}
