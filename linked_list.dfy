/**
 * The subscriber registry of changroup (linked_list.go): a doubly linked
 * list whose `Insert` appends at the tail and hands back the new node, whose
 * `Delete` unlinks a node in constant time through that handle, and whose
 * `ForEach` walks from `first` along `next`.
 *
 * The ghost sequence `nodes` is the chain from `first` to `last`; `Valid()`
 * pins every `prev`, `next`, `first` and `last` pointer to it, so the
 * abstract value of a list is `nodes`, and the elements it visits are
 * `Elems()`. The read/write lock of the Go type is not modelled: in a
 * sequential model every operation already runs alone.
 */
module LinkedList {

  /** No element of `s` occurs twice. Stated head first, so that the
    * verifier unfolds it only where a proof asks for it. */
  ghost predicate Distinct<X>(s: seq<X>) {
    s == [] || (s[0] !in s[1..] && Distinct(s[1..]))
  }

  /** Two different positions of a sequence without repetitions hold
    * different elements. */
  lemma {:induction false} DistinctAt<X>(s: seq<X>, i: nat, j: nat)
    requires Distinct(s) && i < |s| && j < |s| && i != j
    ensures s[i] != s[j]
  {
    if i > 0 && j > 0 {
      DistinctAt(s[1..], i - 1, j - 1);
    } else if i == 0 {
      assert s[j] == s[1..][j - 1];
    } else {
      assert s[i] == s[1..][i - 1];
    }
  }

  /** Appending an element that is not yet present keeps a sequence free of
    * repetitions. */
  lemma {:induction false} DistinctAppend<X>(s: seq<X>, x: X)
    requires Distinct(s) && x !in s
    ensures Distinct(s + [x])
  {
    if s != [] {
      assert (s + [x])[1..] == s[1..] + [x];
      DistinctAppend(s[1..], x);
    }
  }

  /** `s` with every occurrence of `x` taken out, the others kept in order:
    * the effect a removal by handle has on the chain. */
  function Without<X(==)>(s: seq<X>, x: X): seq<X> {
    if s == [] then []
    else if s[0] == x then Without(s[1..], x)
    else [s[0]] + Without(s[1..], x)
  }

  /** `x` is gone and nothing else is. */
  lemma {:induction false} WithoutMembers<X>(s: seq<X>, x: X, y: X)
    ensures y in Without(s, x) <==> y in s && y != x
  {
    if s != [] {
      WithoutMembers(s[1..], x, y);
      assert s == [s[0]] + s[1..];
    }
  }

  /** Removing what is not there changes nothing. */
  lemma {:induction false} WithoutAbsent<X>(s: seq<X>, x: X)
    requires x !in s
    ensures Without(s, x) == s
  {
    if s != [] {
      assert s[0] != x;
      WithoutAbsent(s[1..], x);
      assert s == [s[0]] + s[1..];
    }
  }

  /** Removal distributes over concatenation. */
  lemma {:induction false} WithoutConcat<X>(a: seq<X>, b: seq<X>, x: X)
    ensures Without(a + b, x) == Without(a, x) + Without(b, x)
  {
    if a != [] {
      assert (a + b)[1..] == a[1..] + b;
      WithoutConcat(a[1..], b, x);
    } else {
      assert a + b == b;
    }
  }

  /** In a sequence without repetitions, removing the element at `k` cuts
    * out exactly position `k` and keeps the rest in their original order. */
  lemma {:induction false} WithoutAt<X>(s: seq<X>, k: nat)
    requires k < |s| && Distinct(s)
    ensures Without(s, s[k]) == s[..k] + s[k + 1..]
  {
    if k == 0 {
      WithoutAbsent(s[1..], s[0]);
    } else {
      assert s[1..][k - 1] == s[k];
      assert s[0] != s[k] by { DistinctAt(s, 0, k); }
      WithoutAt(s[1..], k - 1);
      assert s[1..][..k - 1] + s[1..][k..] == s[1..k] + s[k + 1..];
      assert s[..k] == [s[0]] + s[1..k];
    }
  }

  /** Appending a new element and then removing it gives back the old
    * sequence. */
  lemma WithoutAppended<X>(s: seq<X>, x: X)
    requires x !in s
    ensures Without(s + [x], x) == s
  {
    WithoutConcat(s, [x], x);
    WithoutAbsent(s, x);
  }

  /** Removal keeps a sequence free of repetitions. */
  lemma {:induction false} WithoutDistinct<X>(s: seq<X>, x: X)
    requires Distinct(s)
    ensures Distinct(Without(s, x))
  {
    if s != [] {
      WithoutDistinct(s[1..], x);
      WithoutMembers(s[1..], x, s[0]);
      var r := Without(s[1..], x);
      if s[0] != x {
        assert ([s[0]] + r)[1..] == r;
      }
    }
  }

  /** The elements held by a chain of nodes, in chain order. */
  function ElemsOf<T>(ns: seq<Node<T>>): seq<T> {
    seq(|ns|, i requires 0 <= i < |ns| => ns[i].elem)
  }

  /** Taking a node out of a chain takes its element out of the chain's
    * elements, when no other node of the chain holds that element. */
  lemma {:induction false} ElemsOfWithout<T>(ns: seq<Node<T>>, n: Node<T>)
    requires forall i :: 0 <= i < |ns| && ns[i].elem == n.elem ==> ns[i] == n
    ensures ElemsOf(Without(ns, n)) == Without(ElemsOf(ns), n.elem)
  {
    if ns != [] {
      assert ElemsOf(ns)[1..] == ElemsOf(ns[1..]);
      ElemsOfWithout(ns[1..], n);
      if ns[0] != n {
        assert ElemsOf([ns[0]] + Without(ns[1..], n)) == [ns[0].elem] + ElemsOf(Without(ns[1..], n));
      }
    }
  }

  /** Taking the node at position `k` out of a chain without repetitions
    * cuts out exactly position `k` of the chain's elements, whether or not
    * other nodes hold the same element. */
  lemma ElemsOfWithoutAt<T>(ns: seq<Node<T>>, k: nat)
    requires k < |ns| && Distinct(ns)
    ensures ElemsOf(Without(ns, ns[k])) == ElemsOf(ns)[..k] + ElemsOf(ns)[k + 1..]
  {
    WithoutAt(ns, k);
    var cut, es := ns[..k] + ns[k + 1..], ElemsOf(ns);
    forall i | 0 <= i < |cut|
      ensures ElemsOf(cut)[i] == (es[..k] + es[k + 1..])[i]
    {
      if i < k {
        assert cut[i] == ns[i];
      } else {
        assert cut[i] == ns[i + 1];
      }
    }
  }

  /** The elements of a chain without repetitions are themselves without
    * repetitions when no two nodes hold the same element. */
  lemma {:induction false} ElemsOfDistinct<T>(ns: seq<Node<T>>)
    requires Distinct(ns)
    requires forall i, j :: 0 <= i < |ns| && 0 <= j < |ns| && ns[i].elem == ns[j].elem ==> i == j
    ensures Distinct(ElemsOf(ns))
  {
    if ns != [] {
      var es := ElemsOf(ns);
      assert es[1..] == ElemsOf(ns[1..]);
      forall i, j | 0 <= i < |ns[1..]| && 0 <= j < |ns[1..]| && ns[1..][i].elem == ns[1..][j].elem
        ensures i == j
      {
        assert ns[1..][i] == ns[i + 1] && ns[1..][j] == ns[j + 1];
      }
      ElemsOfDistinct(ns[1..]);
    }
  }

  /** A list entry (`node` in linked_list.go). */
  class Node<T> {
    const elem: T
    var prev: Node?<T>
    var next: Node?<T>
    const list: List<T>

    constructor (elem: T, prev: Node?<T>, list: List<T>)
      ensures this.elem == elem && this.prev == prev && next == null && this.list == list
    {
      this.elem := elem;
      this.prev := prev;
      this.next := null;
      this.list := list;
    }

    /** Unlinks this node from its list (`node.Delete`). Deleting a node
      * that is already out of the chain leaves the list as it was. */
    method Delete()
      requires list.Valid() && this in list.members
      modifies list, list.members
      ensures list.Valid() && list.members == old(list.members)
      ensures list.nodes == Without(old(list.nodes), this)
      ensures prev == null && next == null
      ensures old(this !in list.nodes) ==> list.nodes == old(list.nodes)
      ensures old(this !in list.nodes) ==> list.first == old(list.first) && list.last == old(list.last)
    {
      ghost var s := list.nodes;
      if this in s {
        ghost var k :| 0 <= k < |s| && s[k] == this;
        assert list.LinkedAt(k);
      } else {
        WithoutAbsent(s, this);
        assert list.first != this && list.last != this && prev == null && next == null;
      }
      if list.first == this {
        list.first := next;
      }
      if list.last == this {
        list.last := prev;
      }
      if next != null {
        next.prev := prev;
      }
      if prev != null {
        prev.next := next;
      }
      next, prev := null, null;
      list.nodes := Without(s, this);
      UnlinkedValid(this);
    }
  }

  /** The neighbours a node at position `i` of chain `s` links to. */
  ghost function Before<T>(s: seq<Node<T>>, i: int): Node?<T>
    requires 0 <= i < |s|
  {
    if i == 0 then null else s[i - 1]
  }

  ghost function After<T>(s: seq<Node<T>>, i: int): Node?<T>
    requires 0 <= i < |s|
  {
    if i == |s| - 1 then null else s[i + 1]
  }

  /** The node at position `i` of chain `s` points back at its predecessor
    * and forward at its successor (nil at the ends). */
  ghost predicate LinkedIn<T>(s: seq<Node<T>>, i: int)
    reads if 0 <= i < |s| then {s[i]} else {}
  {
    0 <= i < |s| && s[i].prev == Before(s, i) && s[i].next == After(s, i)
  }

  /** What the pointer updates of `Delete` leave behind: the list is well
    * formed again, around the chain without the deleted node `n`. The
    * requirements say exactly what those updates do to the heap: `first` and
    * `last` move off `n`, the successor `nx` points back at the predecessor
    * `p` and `p` forward at `nx`, `n` has both links nil, and no other node
    * changes. */
  twostate lemma UnlinkedValid<T>(n: Node<T>)
    requires old(n.list.Valid()) && n in old(n.list.members)
    requires n.list.members == old(n.list.members)
    requires n.list.nodes == Without(old(n.list.nodes), n)
    requires n.list.first == (if old(n.list.first) == n then old(n.next) else old(n.list.first))
    requires n.list.last == (if old(n.list.last) == n then old(n.prev) else old(n.list.last))
    requires forall m {:trigger m in n.list.members} :: m in n.list.members ==>
      && m.prev == (if m == n then null else if m == old(n.next) then old(n.prev) else old(m.prev))
      && m.next == (if m == n then null else if m == old(n.prev) then old(n.next) else old(m.next))
    ensures n.list.Valid()
  {
    var l, s, p, nx := n.list, old(n.list.nodes), old(n.prev), old(n.next);
    if n in s {
      var k :| 0 <= k < |s| && s[k] == n;
      assert old(l.LinkedAt(k));
      if k > 0 {
        DistinctAt(s, 0, k);
        DistinctAt(s, k - 1, k);
        assert old(l.LinkedAt(k - 1));
      }
      if k + 1 < |s| {
        DistinctAt(s, k, |s| - 1);
        DistinctAt(s, k, k + 1);
        assert old(l.LinkedAt(k + 1));
      }
      if 0 < k < |s| - 1 {
        DistinctAt(s, k - 1, k + 1);
      }
      forall i | 0 <= i < |s| && i != k && i + 1 != k && i != k + 1
        ensures LinkedIn(s, i)
      {
        DistinctAt(s, i, k);
        if k > 0 {
          DistinctAt(s, i, k - 1);
        }
        if k + 1 < |s| {
          DistinctAt(s, i, k + 1);
        }
        assert old(l.LinkedAt(i));
      }
      forall m {:trigger m in l.members} | m in l.members && m !in s
        ensures m.prev == null && m.next == null
      {
        assert m != n && m != p && m != nx;
      }
      UnlinkedShape(l, s, k);
    } else {
      WithoutAbsent(s, n);
      forall i | 0 <= i < |s|
        ensures l.LinkedAt(i)
      {
        assert old(l.LinkedAt(i));
      }
    }
  }

  /** After the pointer updates of `Delete` on the node at position `k` of
    * the chain `s`, the list is well formed again around the chain without
    * that node. */
  lemma {:induction false} UnlinkedShape<T>(l: List<T>, s: seq<Node<T>>, k: nat)
    requires k < |s| && Distinct(s) && l.nodes == Without(s, s[k])
    requires forall i :: 0 <= i < |s| ==> s[i] in l.members
    requires forall i :: 0 <= i < |s| && i != k && i + 1 != k && i != k + 1 ==> LinkedIn(s, i)
    requires s[k].prev == null && s[k].next == null
    requires k > 0 ==> s[k - 1].prev == Before(s, k - 1) && s[k - 1].next == After(s, k)
    requires k + 1 < |s| ==> s[k + 1].next == After(s, k + 1) && s[k + 1].prev == Before(s, k)
    requires forall m {:trigger m in l.members} :: m in l.members && m !in s ==> m.prev == null && m.next == null
    requires forall m {:trigger m in l.members} :: m in l.members ==> m.list == l
    requires l.first == (if k == 0 then After(s, 0) else s[0])
    requires l.last == (if k == |s| - 1 then Before(s, k) else s[|s| - 1])
    ensures l.Valid()
  {
    WithoutAt(s, k);
    WithoutDistinct(s, s[k]);
    UnlinkedChain(l, s, k);
    UnlinkedRemoved(l, s, k);
    UnlinkedEnds(l, s, k);
  }

  /** The end part of `UnlinkedShape`: `first` and `last` are the ends of
    * the chain without the node, and all of it still belongs to the list. */
  lemma {:induction false} UnlinkedEnds<T>(l: List<T>, s: seq<Node<T>>, k: nat)
    requires k < |s| && l.nodes == s[..k] + s[k + 1..]
    requires forall i :: 0 <= i < |s| ==> s[i] in l.members
    requires l.first == (if k == 0 then After(s, 0) else s[0])
    requires l.last == (if k == |s| - 1 then Before(s, k) else s[|s| - 1])
    ensures forall i :: 0 <= i < |l.nodes| ==> l.nodes[i] in l.members
    ensures l.first == (if l.nodes == [] then null else l.nodes[0])
    ensures l.last == (if l.nodes == [] then null else l.nodes[|l.nodes| - 1])
  {
    var t := l.nodes;
    CutIndex(s, k);
    forall i | 0 <= i < |t|
      ensures t[i] in l.members
    {
      assert t[i] == if i < k then s[i] else s[i + 1];
    }
    if t != [] {
      assert t[0] == if k == 0 then s[1] else s[0];
      assert t[|t| - 1] == if k == |s| - 1 then s[k - 1] else s[|s| - 1];
    }
  }

  /** Positions in a sequence with the element at `k` cut out. */
  lemma CutIndex<X>(s: seq<X>, k: nat)
    requires k < |s|
    ensures |s[..k] + s[k + 1..]| == |s| - 1
    ensures forall i :: 0 <= i < |s| - 1 ==> (s[..k] + s[k + 1..])[i] == if i < k then s[i] else s[i + 1]
  {
  }

  /** The removed-node part of `UnlinkedShape`: the node cut out joins the
    * others outside the chain, all with nil links. */
  lemma {:induction false} UnlinkedRemoved<T>(l: List<T>, s: seq<Node<T>>, k: nat)
    requires k < |s| && l.nodes == Without(s, s[k])
    requires s[k].prev == null && s[k].next == null
    requires forall m {:trigger m in l.members} :: m in l.members && m !in s ==> m.prev == null && m.next == null
    ensures forall m {:trigger m in l.members} :: m in l.members && m !in l.nodes ==> m.prev == null && m.next == null
  {
    forall m {:trigger m in l.members} | m in l.members && m !in l.nodes
      ensures m.prev == null && m.next == null
    {
      WithoutMembers(s, s[k], m);
    }
  }

  /** The link part of `UnlinkedShape`: every node left in the chain points
    * at its new neighbours. */
  lemma {:induction false} UnlinkedChain<T>(l: List<T>, s: seq<Node<T>>, k: nat)
    requires k < |s| && l.nodes == s[..k] + s[k + 1..]
    requires forall i :: 0 <= i < |s| ==> s[i] in l.members
    requires forall i :: 0 <= i < |s| && i != k && i + 1 != k && i != k + 1 ==> LinkedIn(s, i)
    requires k > 0 ==> s[k - 1].prev == Before(s, k - 1) && s[k - 1].next == After(s, k)
    requires k + 1 < |s| ==> s[k + 1].next == After(s, k + 1) && s[k + 1].prev == Before(s, k)
    ensures forall i :: 0 <= i < |l.nodes| ==> l.LinkedAt(i)
  {
    var t := l.nodes;
    forall i | 0 <= i < |t|
      ensures l.LinkedAt(i)
    {
      if i < k {
        assert t[i] == s[i];
        if i > 0 {
          assert t[i - 1] == s[i - 1];
        }
        if i < k - 1 {
          assert LinkedIn(s, i);
          assert t[i + 1] == s[i + 1];
        }
      } else {
        assert t[i] == s[i + 1];
        if i > k {
          assert LinkedIn(s, i + 1);
          assert t[i - 1] == s[i];
        }
        if i + 1 < |t| {
          assert t[i + 1] == s[i + 2];
        }
      }
    }
  }

  /** The list itself (`list` in linked_list.go). */
  class List<T> {
    var first: Node?<T>
    var last: Node?<T>
    /** The chain from `first` to `last`. */
    ghost var nodes: seq<Node<T>>
    /** Every node ever inserted into this list, linked or removed. */
    ghost var members: set<Node<T>>

    /** The doubly linked shape: `first` and `last` are the ends of the
      * chain, every `prev` and `next` points at the neighbour in it (so
      * `first.prev` and `last.next` are nil and `n.next.prev == n`), and a
      * node that has been removed has both links nil. */
    ghost predicate Valid()
      reads this, members
    {
      && (forall i :: 0 <= i < |nodes| ==> nodes[i] in members)
      && Distinct(nodes)
      && first == (if nodes == [] then null else nodes[0])
      && last == (if nodes == [] then null else nodes[|nodes| - 1])
      && (forall i :: 0 <= i < |nodes| ==> LinkedAt(i))
      && (forall n {:trigger n in members} :: n in members ==> n.list == this)
      && (forall n {:trigger n in members} :: n in members && n !in nodes ==> n.prev == null && n.next == null)
    }

    /** The node at position `i` of the chain points back at its
      * predecessor and forward at its successor (nil at the ends). */
    ghost predicate LinkedAt(i: int)
      reads this, members
    {
      && 0 <= i < |nodes|
      && nodes[i] in members
      && LinkedIn(nodes, i)
    }

    /** The elements `ForEach` visits, in order. */
    ghost function Elems(): seq<T>
      reads this
    {
      ElemsOf(nodes)
    }

    /** A new, empty list (`newList`). */
    constructor ()
      ensures Valid() && nodes == [] && members == {}
      ensures first == null && last == null
    {
      first, last := null, null;
      nodes, members := [], {};
    }

    /** Appends `elem` at the tail and returns its node (`Insert`). */
    method Insert(elem: T) returns (n: Node<T>)
      requires Valid()
      modifies this, members
      ensures Valid() && fresh(n)
      ensures nodes == old(nodes) + [n] && members == old(members) + {n}
      ensures Elems() == old(Elems()) + [elem]
      ensures n.elem == elem && n.list == this
      ensures last == n && n.prev == old(last) && n.next == null
      ensures old(last) == null ==> first == n
      ensures old(last) != null ==> first == old(first) && old(last).next == n
    {
      n := new Node(elem, last, this);
      if last == null {
        first := n;
      } else {
        last.next := n;
      }
      last := n;
      nodes := nodes + [n];
      members := members + {n};
      forall i | 0 <= i < |nodes|
        ensures LinkedAt(i)
      {
        if i < |old(nodes)| {
          assert old(LinkedAt(i));
          assert nodes[i] == old(nodes)[i] && nodes[i] != n;
          if i < |old(nodes)| - 1 {
            DistinctAt(old(nodes), i, |old(nodes)| - 1);
          }
        }
      }
      DistinctAppend(old(nodes), n);
    }

    /** Walks the chain from `first` along `next` (`ForEach`) and returns
      * the elements in the order the visitor is called on them. */
    method ForEach() returns (visited: seq<T>)
      requires Valid()
      ensures visited == Elems()
    {
      visited := [];
      var n := first;
      ghost var k := 0;
      while n != null
        invariant Valid() && 0 <= k <= |nodes|
        invariant n == (if k == |nodes| then null else nodes[k])
        invariant visited == ElemsOf(nodes[..k])
        decreases |nodes| - k
      {
        assert n == nodes[k] && LinkedAt(k);
        assert nodes[..k + 1] == nodes[..k] + [n];
        visited := visited + [n.elem];
        n := n.next;
        k := k + 1;
      }
      assert nodes[..k] == nodes;
    }
  }
}
