/** The doubly linked list of adlist.c as it lies in memory. `nodes` is the sequence that the
    pointers spell out; every operation does to it what its name says. */
module Adlist {
  import opened Common

  class ListNode<T> {
    var prev: ListNode?<T>
    var next: ListNode?<T>
    const value: T
    ghost var owner: List?<T>

    constructor (value: T)
      ensures this.value == value && prev == null && next == null && owner == null
    {
      this.value, prev, next, owner := value, null, null, null;
    }
  }

  /** The values of a sequence of nodes. */
  ghost function Values<T>(nodes: seq<ListNode<T>>): seq<T> {
    seq(|nodes|, i requires 0 <= i < |nodes| => nodes[i].value)
  }

  /** Where the `j`-th element stood before the `i`-th was removed. */
  ghost function Skip(i: nat, j: nat): nat { if j < i then j else j + 1 }

  /** A sequence without its `i`-th element. */
  lemma CutAt<T>(s: seq<T>, i: nat)
    requires Distinct(s) && i < |s|
    ensures var r := s[..i] + s[i + 1..];
            Distinct(r) && forall j: nat :: j < |r| ==> r[j] == s[Skip(i, j)]
  {
  }

  class List<T> {
    var head: ListNode?<T>
    var tail: ListNode?<T>
    var len: nat
    ghost var nodes: seq<ListNode<T>>
    ghost var released: bool

    /** The pointers spell out `nodes`, and the nodes belong to no other list. */
    ghost predicate Valid()
      reads this, nodes
    {
      && !released && len == |nodes|
      && (if nodes == [] then head == null && tail == null
          else head == nodes[0] && tail == nodes[|nodes| - 1] && head.prev == null && tail.next == null)
      && Distinct(nodes)
      && (forall i {:trigger nodes[i].owner} :: 0 <= i < |nodes| ==> nodes[i].owner == this)
      && (forall i {:trigger nodes[i].prev} :: 1 <= i < |nodes| ==> nodes[i].prev == nodes[i - 1])
      && (forall i {:trigger nodes[i].next} :: 0 <= i < |nodes| - 1 ==> nodes[i].next == nodes[i + 1])
    }

    /** listCreate */
    constructor ()
      ensures Valid() && nodes == []
    {
      head, tail, len, nodes, released := null, null, 0, [], false;
    }

    /** listAddNodeTail */
    method AddNodeTail(value: T) returns (node: ListNode<T>)
      requires Valid()
      modifies this, nodes
      ensures Valid() && fresh(node) && node.value == value
      ensures nodes == old(nodes) + [node]
    {
      node := new ListNode(value);
      if len == 0 {
        head, tail := node, node;
      } else {
        node.prev := tail;
        tail.next := node;
        tail := node;
      }
      len := len + 1;
      node.owner := this;
      nodes := nodes + [node];
    }

    /** listAddNodeHead */
    method AddNodeHead(value: T) returns (node: ListNode<T>)
      requires Valid()
      modifies this, nodes
      ensures Valid() && fresh(node) && node.value == value
      ensures nodes == [node] + old(nodes)
    {
      node := new ListNode(value);
      if len == 0 {
        head, tail := node, node;
      } else {
        node.next := head;
        head.prev := node;
        head := node;
      }
      len := len + 1;
      node.owner := this;
      nodes := [node] + nodes;
    }

    /** listDelNode */
    method DelNode(node: ListNode<T>, ghost i: nat)
      requires Valid() && i < |nodes| && nodes[i] == node
      modifies this, nodes
      ensures Valid()
      ensures nodes == old(nodes)[..i] + old(nodes)[i + 1..]
      ensures node.owner == null
    {
      assert node.prev == if i > 0 then nodes[i - 1] else null;
      assert node.next == if i < |nodes| - 1 then nodes[i + 1] else null;
      if node.prev != null {
        node.prev.next := node.next;
      } else {
        head := node.next;
      }
      if node.next != null {
        node.next.prev := node.prev;
      } else {
        tail := node.prev;
      }
      len := len - 1;
      node.owner := null;
      nodes := nodes[..i] + nodes[i + 1..];
      hide Distinct;
      Relinked(old(nodes), i);
    }

    /** The node at `i` of the sequence `s` was unlinked, and its neighbours point to each other:
        then the pointers spell out the sequence without it. */
    lemma Relinked(s: seq<ListNode<T>>, i: nat)
      requires i < |s| && Distinct(s) && nodes == s[..i] + s[i + 1..] && !released && len == |s| - 1
      requires if nodes == [] then head == null && tail == null
               else head == nodes[0] && tail == nodes[|nodes| - 1] && head.prev == null && tail.next == null
      requires forall j :: 0 <= j < |s| && j != i ==> s[j].owner == this
      requires forall j :: 1 <= j < |s| && j != i && j != i + 1 ==> s[j].prev == s[j - 1]
      requires forall j :: 0 <= j < |s| - 1 && j != i && j != i - 1 ==> s[j].next == s[j + 1]
      requires 0 < i < |s| - 1 ==> s[i - 1].next == s[i + 1] && s[i + 1].prev == s[i - 1]
      ensures Valid()
    {
      CutAt(s, i);
      forall j {:trigger nodes[j].owner} | 0 <= j < |nodes| ensures nodes[j].owner == this {
        assert nodes[j] == s[Skip(i, j)];
      }
      forall j {:trigger nodes[j].prev} | 1 <= j < |nodes| ensures nodes[j].prev == nodes[j - 1] {
        assert nodes[j] == s[Skip(i, j)] && nodes[j - 1] == s[Skip(i, j - 1)];
      }
      forall j {:trigger nodes[j].next} | 0 <= j < |nodes| - 1 ensures nodes[j].next == nodes[j + 1] {
        assert nodes[j] == s[Skip(i, j)] && nodes[j + 1] == s[Skip(i, j + 1)];
      }
    }

    /** listRotateHeadToTail */
    method RotateHeadToTail()
      requires Valid()
      modifies this, nodes
      ensures Valid()
      ensures nodes == if |old(nodes)| <= 1 then old(nodes) else old(nodes)[1..] + [old(nodes)[0]]
    {
      if len <= 1 { return; }
      var first := head;
      head := first.next;
      head.prev := null;
      tail.next := first;
      first.next := null;
      first.prev := tail;
      tail := first;
      nodes := nodes[1..] + [nodes[0]];
    }

    /** listRotateTailToHead */
    method RotateTailToHead()
      requires Valid()
      modifies this, nodes
      ensures Valid()
      ensures var n := |old(nodes)| - 1; nodes == if n <= 0 then old(nodes) else [old(nodes)[n]] + old(nodes)[..n]
    {
      if len <= 1 { return; }
      var last := tail;
      tail := last.prev;
      tail.next := null;
      head.prev := last;
      last.prev := null;
      last.next := head;
      head := last;
      nodes := [nodes[|nodes| - 1]] + nodes[..|nodes| - 1];
    }

    /** listIndex: from the head, or with a negative index from the tail. */
    method Index(index: int) returns (n: ListNode?<T>)
      requires Valid()
      ensures n == (if 0 <= index < |nodes| then nodes[index]
                    else if -|nodes| <= index < 0 then nodes[|nodes| + index]
                    else null)
    {
      if index < 0 {
        var left := -index - 1;
        n := tail;
        while left > 0 && n != null
          invariant 0 <= left <= -index - 1
          invariant var at := |nodes| + index + left; n == if at >= 0 then nodes[at] else null
        {
          n := n.prev;
          left := left - 1;
        }
      } else {
        var left := index;
        n := head;
        while left > 0 && n != null
          invariant 0 <= left <= index
          invariant var at := index - left; n == if at < |nodes| then nodes[at] else null
        {
          n := n.next;
          left := left - 1;
        }
      }
    }

    /** listRelease: the list must not be touched any more. */
    method Release()
      requires Valid()
      modifies this
      ensures released
    {
      released := true;
      head, tail, len := null, null, 0;
    }
  }

  /** listIter, going from the head. `pos` is the number of nodes behind it. */
  class ListIter<T> {
    var next: ListNode?<T>
    ghost var pos: nat

    ghost predicate Valid(l: List<T>)
      reads this, l, l.nodes
    {
      l.Valid() && pos <= |l.nodes| && next == if pos < |l.nodes| then l.nodes[pos] else null
    }

    /** listRewind */
    constructor (l: List<T>)
      requires l.Valid()
      ensures Valid(l) && pos == 0
    {
      next, pos := l.head, 0;
    }

    /** listNext */
    method Next(l: List<T>) returns (current: ListNode?<T>)
      requires Valid(l)
      modifies this
      ensures Valid(l)
      ensures if old(pos) < |l.nodes|
              then current == l.nodes[old(pos)] && pos == old(pos) + 1
              else current == null && pos == old(pos)
    {
      current := next;
      if current != null {
        next := current.next;
        pos := pos + 1;
      }
    }

    /** The node returned last may be removed: the iterator goes on with the same one. */
    method DelCurrent(l: List<T>, current: ListNode<T>)
      requires Valid(l) && pos > 0 && current == l.nodes[pos - 1]
      modifies this`pos, l, l.nodes
      ensures Valid(l) && pos == old(pos) - 1 && next == old(next)
      ensures l.nodes == old(l.nodes)[..pos] + old(l.nodes)[pos + 1..]
    {
      l.DelNode(current, pos - 1);
      pos := pos - 1;
    }
  }
}
