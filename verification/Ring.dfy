/** A.em, the circular doubly linked list that holds the pending operations, and its entries A.aF. */
module LinkedRing {

  class Node<T> {
    var value: T
    var list: Ring?<T>
    var next: Node?<T>
    var previous: Node?<T>

    constructor (value: T)
      ensures this.value == value && list == null
    {
      this.value := value;
      list, next, previous := null, null, null;
    }
  }

  /** The position after k in a ring of n entries, and the one before it. */
  function After(k: nat, n: nat): nat
    requires k < n
  {
    if k == n - 1 then 0 else k + 1
  }

  function Ahead(k: nat, n: nat): nat
    requires k < n
  {
    if k == 0 then n - 1 else k - 1
  }

  /** Different entries of one list, each linked to the next, and the last to the first. */
  ghost predicate Linked<T>(s: seq<Node<T>>, list: Ring<T>)
    reads s
  {
    && (forall i, j :: 0 <= i < j < |s| ==> s[i] != s[j])
    && (forall i :: 0 <= i < |s| ==> s[i].list == list)
    && (forall i {:trigger s[i].next} :: 0 <= i < |s| ==> s[i].next == s[After(i, |s|)])
    && (forall i {:trigger s[i].previous} :: 0 <= i < |s| ==> s[i].previous == s[Ahead(i, |s|)])
  }

  /** The same, but for the entry at position k, which is passed over. */
  ghost predicate LinkedPast<T>(s: seq<Node<T>>, list: Ring<T>, k: nat)
    requires k < |s|
    reads s
  {
    && (forall i, j :: 0 <= i < j < |s| ==> s[i] != s[j])
    && (forall i :: 0 <= i < |s| && i != k ==> s[i].list == list)
    && (forall i {:trigger s[i].next} :: 0 <= i < |s| && i != k ==>
          s[i].next == s[if After(i, |s|) == k then After(k, |s|) else After(i, |s|)])
    && (forall i {:trigger s[i].previous} :: 0 <= i < |s| && i != k ==>
          s[i].previous == s[if Ahead(i, |s|) == k then Ahead(k, |s|) else Ahead(i, |s|)])
  }

  lemma LinkedWithout<T>(s: seq<Node<T>>, list: Ring<T>, k: nat)
    requires k < |s| && LinkedPast(s, list, k)
    ensures Linked(s[..k] + s[k + 1..], list)
  {
    var t := s[..k] + s[k + 1..];
    assert forall i :: 0 <= i < |t| ==> t[i] == s[if i < k then i else i + 1];
    forall i | 0 <= i < |t| ensures t[i].next == t[After(i, |t|)] {
      assert t[i] == s[if i < k then i else i + 1];
    }
    forall i | 0 <= i < |t| ensures t[i].previous == t[Ahead(i, |t|)] {
      assert t[i] == s[if i < k then i else i + 1];
    }
  }

  class Ring<T> {
    var modifications: nat
    var length: nat
    var first: Node?<T>
    ghost var nodes: seq<Node<T>>
    ghost var footprint: set<Node<T>>   // every entry that was ever in the list

    /**
     The entries form a ring in the order of nodes: forward and backward links are inverse, the
     last entry links to the first, and the counter is the number of entries.
    */
    ghost predicate Valid()
      reads this, nodes
    {
      && (forall i :: 0 <= i < |nodes| ==> nodes[i] in footprint)
      && length == |nodes|
      && (first == if nodes == [] then null else nodes[0])
      && Linked(nodes, this)
    }

    /** Forward and backward links are inverse at every entry, and forward leads round the ring in order. */
    lemma Links(i: nat)
      requires Valid() && i < |nodes|
      ensures var n := nodes[i];
        && n.next != null && n.previous != null && n.next in nodes && n.previous in nodes
        && n.next.previous == n && n.previous.next == n
        && n.next == nodes[After(i, |nodes|)] && n.previous == nodes[Ahead(i, |nodes|)]
    {
    }

    /** The values in the list, in order. */
    ghost function Values(): (s: seq<T>)
      reads this, nodes
      ensures |s| == |nodes|
      ensures forall i :: 0 <= i < |s| ==> s[i] == nodes[i].value
    {
      seq(|nodes|, i requires 0 <= i < |nodes| reads this, nodes => nodes[i].value)
    }

    constructor ()
      ensures Valid() && nodes == [] && footprint == {}
    {
      modifications, length, first, nodes, footprint := 0, 0, null, [], {};
    }

    /** The links of dT: b comes between the last entry and the first. */
    method LinkIn(b: Node<T>)
      requires Valid() && b.list == null && nodes != []
      modifies footprint, b
      ensures Linked(nodes + [b], this)
      ensures b.value == old(b.value) && forall n :: n in nodes ==> n.value == old(n.value)
    {
      ghost var n := |nodes|;
      b.list := this;
      var a := first;
      var r := a.previous;
      assert a == nodes[0] && r == nodes[n - 1];
      b.previous := r;
      b.next := a;
      a.previous, r.next := b, b;
      ghost var all := nodes + [b];
      assert forall i {:trigger all[i].next} :: 0 <= i <= n ==> all[i].next == all[After(i, n + 1)];
      assert forall i {:trigger all[i].previous} :: 0 <= i <= n ==> all[i].previous == all[Ahead(i, n + 1)];
    }

    /** dT, as it is used here: b is inserted before the first entry, that is, at the end of the list. */
    method Append(b: Node<T>)
      requires Valid() && b.list == null
      modifies this, footprint, b
      ensures Valid() && nodes == old(nodes) + [b] && footprint == old(footprint) + {b}
      ensures forall n :: n in nodes ==> n.value == old(n.value)
    {
      modifications := modifications + 1;
      if length == 0 {
        b.list, b.next, b.previous := this, b, b;
        first := b;
      } else {
        LinkIn(b);
      }
      length := length + 1;
      footprint := footprint + {b};
      nodes := nodes + [b];
    }

    /** The links of e4: the neighbours of the entry a, at position k, become neighbours of each other. */
    method Bypass(a: Node<T>, ghost k: nat)
      requires Valid() && k < |nodes| && nodes[k] == a
      modifies footprint
      ensures a.list == null && a.next == null && a.previous == null
      ensures LinkedPast(nodes, this, k)
      ensures forall n :: n in footprint ==> n.value == old(n.value)
    {
      Links(k);
      var s, p := a.next, a.previous;
      assert s == nodes[After(k, |nodes|)] && p == nodes[Ahead(k, |nodes|)];
      s.previous := p;
      p.next := s;
      a.list, a.next, a.previous := null, null, null;
    }

    /** e4: takes the entry a out of the ring. Its position is k. */
    method Unlink(a: Node<T>, ghost k: nat)
      requires Valid() && k < |nodes| && nodes[k] == a
      modifies this, footprint
      ensures Valid() && footprint == old(footprint)
      ensures nodes == old(nodes)[..k] + old(nodes)[k + 1..]
      ensures a.list == null && a.next == null && a.previous == null
      ensures forall n :: n in old(nodes) ==> n.value == old(n.value)
    {
      modifications := modifications + 1;
      var s := a.next;
      Bypass(a, k);
      LinkedWithout(nodes, this, k);
      length := length - 1;
      if length == 0 {
        first := null;
      } else if a == first {
        first := s;
      }
      nodes := nodes[..k] + nodes[k + 1..];
    }

    /** A: removes an entry, unless it belongs to another list. */
    method Remove(a: Node<T>, ghost k: nat) returns (removed: bool)
      requires Valid() && (a.list == this ==> k < |nodes| && nodes[k] == a)
      modifies this, footprint
      ensures footprint == old(footprint)
      ensures removed <==> old(a.list) == this
      ensures Valid() && nodes == if removed then old(nodes)[..k] + old(nodes)[k + 1..] else old(nodes)
      ensures removed ==> a.list == null
      ensures forall n :: n in old(nodes) ==> n.value == old(n.value)
    {
      if a.list != this { return false; }
      Unlink(a, k);
      return true;
    }

    /** Changes what the entry at position k holds, in place. */
    method SetValue(n: Node<T>, value: T, ghost k: nat)
      requires Valid() && k < |nodes| && nodes[k] == n
      modifies n`value
      ensures Valid() && nodes == old(nodes)
      ensures Values() == old(Values())[k := value]
    {
      n.value := value;
    }

    /** Unlinks the entry at position k; every other value stays where it is in the order. */
    method TakeOut(a: Node<T>, ghost k: nat)
      requires Valid() && k < |nodes| && nodes[k] == a
      modifies this, footprint
      ensures Valid() && footprint == old(footprint)
      ensures nodes == old(nodes)[..k] + old(nodes)[k + 1..]
      ensures Values() == old(Values())[..k] + old(Values())[k + 1..]
    {
      Unlink(a, k);
    }

    /** gC: the last entry. */
    method Last() returns (n: Node<T>)
      requires Valid() && nodes != []
      ensures n == nodes[|nodes| - 1]
    {
      n := first.previous;
    }

    /** gcc: the entry before the one at position k, or null at the front of the list. */
    method Before(n: Node<T>, ghost k: nat) returns (p: Node?<T>)
      requires Valid() && k < |nodes| && nodes[k] == n
      ensures p == if k == 0 then null else nodes[k - 1]
    {
      if n.list == null || n == first { return null; }
      p := n.previous;
    }
  }
}
