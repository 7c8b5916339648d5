/** The insertion-ordered singly linked list that backs lists and dictionaries in the
    source: a `head` and a `tail` pointer over nodes joined by `next`. */
module LinkedLists {
  import opened Wrappers

  /** `back()` on an empty list. */
  datatype ListError = EmptyList

  class Node<T> {
    var data: T
    var next: Node?<T>

    constructor (data: T)
      ensures this.data == data && next == null
    {
      this.data := data;
      next := null;
    }
  }

  class LinkedList<T> {
    var head: Node?<T>
    var tail: Node?<T>

    // public view: the elements in order, the nodes holding them, and the objects owned
    ghost var contents: seq<T>
    ghost var nodes: seq<Node<T>>
    ghost var Repr: set<object>

    /** The list invariant: `nodes` is the chain from `head` to `tail`, each node holding the
        matching element; `head` and `tail` are null exactly when the list is empty. */
    ghost predicate Valid()
      reads this, Repr
      ensures Valid() ==> this in Repr
      ensures Valid() ==> (head == null <==> tail == null) && (head == null <==> contents == [])
    {
      this in Repr &&
      |nodes| == |contents| &&
      (forall i :: 0 <= i < |nodes| ==> nodes[i] in Repr) &&
      (forall i, j :: 0 <= i < j < |nodes| ==> nodes[i] != nodes[j]) &&
      (forall i :: 0 <= i < |nodes| ==> nodes[i].data == contents[i]) &&
      (forall i :: 0 <= i < |nodes| - 1 ==> nodes[i].next == nodes[i + 1]) &&
      if nodes == [] then
        head == null && tail == null
      else
        head == nodes[0] && tail == nodes[|nodes| - 1] && tail.next == null
    }

    constructor ()
      ensures Valid() && fresh(Repr) && contents == []
    {
      head, tail := null, null;
      contents, nodes := [], [];
      Repr := {this};
    }

    /** The copy constructor: walks `other` from its head and appends each element. */
    constructor Copy(other: LinkedList<T>)
      requires other.Valid()
      ensures Valid() && fresh(Repr)
      ensures contents == other.contents
    {
      head, tail := null, null;
      contents, nodes := [], [];
      Repr := {this};
      new;
      var current := other.head;
      ghost var i := 0;
      while current != null
        invariant Valid() && fresh(Repr)
        invariant 0 <= i <= |other.nodes|
        invariant current == if i < |other.nodes| then other.nodes[i] else null
        invariant contents == other.contents[..i]
        decreases |other.nodes| - i
      {
        PushBack(current.data);
        current := current.next;
        i := i + 1;
      }
    }

    /** Copy assignment: unless `other` is this very list, empty this list and append each
        element of `other`. Distinct lists never share nodes. */
    method Assign(other: LinkedList<T>)
      requires Valid() && other.Valid()
      requires this == other || Repr !! other.Repr
      modifies Repr
      ensures Valid() && fresh(Repr - old(Repr))
      ensures contents == old(other.contents)
      ensures other.Valid() && other.contents == old(other.contents)
    {
      if this != other {
        Clear();
        var current := other.head;
        ghost var i := 0;
        while current != null
          invariant Valid() && fresh(Repr - old(Repr)) && Repr !! other.Repr
          invariant other.Valid() && other.contents == old(other.contents)
          invariant 0 <= i <= |other.nodes|
          invariant current == if i < |other.nodes| then other.nodes[i] else null
          invariant contents == other.contents[..i]
          decreases |other.nodes| - i
        {
          PushBack(current.data);
          current := current.next;
          i := i + 1;
        }
      }
    }

    method PushBack(x: T)
      requires Valid()
      modifies Repr
      ensures Valid() && fresh(Repr - old(Repr))
      ensures contents == old(contents) + [x]
    {
      var n := new Node(x);
      if head == null {
        head, tail := n, n;
      } else {
        tail.next := n;
        tail := n;
      }
      nodes := nodes + [n];
      contents := contents + [x];
      Repr := Repr + {n};
    }

    method PushFront(x: T)
      requires Valid()
      modifies Repr
      ensures Valid() && fresh(Repr - old(Repr))
      ensures contents == [x] + old(contents)
    {
      var n := new Node(x);
      if head == null {
        head, tail := n, n;
      } else {
        n.next := head;
        head := n;
      }
      nodes := [n] + nodes;
      contents := [x] + contents;
      Repr := Repr + {n};
    }

    /** Drops every node; the walk that frees them has no counterpart here. */
    method Clear()
      requires Valid()
      modifies Repr
      ensures Valid() && fresh(Repr - old(Repr))
      ensures contents == []
    {
      head, tail := null, null;
      contents, nodes := [], [];
      Repr := {this};
    }

    method IsEmpty() returns (empty: bool)
      requires Valid()
      ensures empty <==> contents == []
    {
      empty := head == null;
    }

    /** The last element, or an error on an empty list. */
    method Back() returns (r: Result<T, ListError>)
      requires Valid()
      ensures r.Ok? <==> contents != []
      ensures r.Ok? ==> r.value == contents[|contents| - 1]
    {
      if tail != null {
        r := Ok(tail.data);
      } else {
        r := Err(EmptyList);
      }
    }
  }
}
