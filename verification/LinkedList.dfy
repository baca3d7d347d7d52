/** The list operations of lib/concurrentLinkedList.c on node objects, one call at a time: the
    same pointer walks, with the locks left out. Each is proved to do what `Apply` says. */
module LinkedList {
  import opened ListSpec

  class ListElement {
    var payload: string
    var payloadSize: nat
    var id: string
    var nextEntry: ListElement?

    constructor (payload: string, payloadSize: nat, id: string)
      ensures this.payload == payload && this.payloadSize == payloadSize && this.id == id && nextEntry == null
    {
      this.payload, this.payloadSize, this.id, this.nextEntry := payload, payloadSize, id, null;
    }
  }

  class ConcurrentLinkedList {
    var firstElement: ListElement?
    ghost var nodes: seq<ListElement>

    /** The nextEntry pointers spell out `nodes`. */
    ghost predicate Valid()
      reads this, nodes
    {
      && firstElement == NodeAt(0)
      && (forall i {:trigger nodes[i].nextEntry} :: 0 <= i < |nodes| ==> nodes[i].nextEntry == NodeAt(i + 1))
      && (forall i, j :: 0 <= i < j < |nodes| ==> nodes[i] != nodes[j])
      && (forall i :: 0 <= i < |nodes| ==> nodes[i].payloadSize == |nodes[i].payload|)
    }

    ghost function NodeAt(i: nat): ListElement?
      reads this
    {
      if i < |nodes| then nodes[i] else null
    }

    ghost function Contents(): (l: seq<Elem>)
      reads this, nodes
      ensures |l| == |nodes|
      ensures forall i :: 0 <= i < |nodes| ==> l[i] == Elem(nodes[i].id, nodes[i].payload)
    {
      seq(|nodes|, i requires 0 <= i < |nodes| reads this, nodes => Elem(nodes[i].id, nodes[i].payload))
    }

    /** newList() */
    constructor ()
      ensures Valid() && nodes == [] && Contents() == []
    {
      firstElement := null;
      nodes := [];
    }

    /** useElementByID: the first element with this ID, or null, and the element before it
        (null: the header). */
    method UseElementByID(id: string) returns (predecessor: ListElement?, element: ListElement?)
      requires Valid()
      ensures var i := Find(Contents(), id);
              && element == NodeAt(i)
              && predecessor == (if i == 0 then null else nodes[i - 1])
    {
      predecessor := null;
      element := null;
      var next := firstElement;
      ghost var i := 0;
      if next != null {
        if next.id == id {
          element := next;
          next := null;
          NotBefore(id, 0);
        } else {
          predecessor := next;
          next := next.nextEntry;
          i := 1;
        }
        while next != null
          invariant i <= |nodes|
          invariant element != null ==> next == null && i == Find(Contents(), id) && element == NodeAt(i)
          invariant element == null ==> 0 < i && next == NodeAt(i)
          invariant predecessor == if i == 0 then null else nodes[i - 1]
          invariant forall j :: 0 <= j < i ==> nodes[j].id != id
          decreases |nodes| - i + (if next == null then 0 else 1)
        {
          if next.id == id {
            element := next;
            next := null;
            NotBefore(id, i);
          } else {
            predecessor := next;
            next := next.nextEntry;
            i := i + 1;
          }
        }
      }
      if element == null { NotBefore(id, |nodes|); }
    }

    lemma NotBefore(id: string, i: nat)
      requires i <= |nodes|
      requires forall j :: 0 <= j < i ==> nodes[j].id != id
      requires i < |nodes| ==> nodes[i].id == id
      ensures Find(Contents(), id) == i
    {
      var k := Find(Contents(), id);
      assert !(k < i);
      assert !(i < k);
    }

    /** getElementByID */
    method GetElementByID(id: string) returns (payloadSize: nat, payload: Option<string>)
      requires Valid()
      ensures (Contents(), Payload(payload)) == Apply(GetById(id), Contents())
      ensures payloadSize == if payload.Some? then |payload.value| else 0
    {
      payloadSize, payload := 0, None;
      var _, element := UseElementByID(id);
      if element != null {
        payloadSize := element.payloadSize;
        payload := Some(element.payload[..payloadSize]);
        assert element.payload[..|element.payload|] == element.payload;
      }
    }

    /** getFirstListElement */
    method GetFirstListElement() returns (payloadSize: nat, payload: Option<string>)
      requires Valid()
      ensures (Contents(), Payload(payload)) == Apply(GetFirst, Contents())
      ensures payloadSize == if payload.Some? then |payload.value| else 0
    {
      if firstElement != null {
        payloadSize := firstElement.payloadSize;
        payload := Some(firstElement.payload[..payloadSize]);
        assert firstElement.payload[..|firstElement.payload|] == firstElement.payload;
      } else {
        payloadSize, payload := 0, None;
      }
    }

    /** getAllElementIDs */
    method GetAllElementIDs() returns (count: nat, ids: string)
      requires Valid()
      ensures (Contents(), Listing(count, ids)) == Apply(GetAllIds, Contents())
    {
      count, ids := 0, "";
      var next := firstElement;
      while next != null
        invariant count <= |nodes| && next == NodeAt(count)
        invariant ids == IdText(Contents()[..count])
        decreases |nodes| - count
      {
        IdTextSnoc(Contents()[..count], Contents()[count]);
        assert Contents()[..count + 1] == Contents()[..count] + [Contents()[count]];
        count := count + 1;
        ids := ids + "\n" + next.id;
        next := next.nextEntry;
      }
      assert Contents()[..count] == Contents();
    }

    /** Store `node` behind the last element, or in the header of an empty list. */
    method LinkIn(predecessor: ListElement?, node: ListElement)
      requires Valid() && predecessor == (if nodes == [] then null else nodes[|nodes| - 1])
      requires node !in nodes && node.nextEntry == null && node.payloadSize == |node.payload|
      modifies this, nodes
      ensures Valid() && nodes == old(nodes) + [node]
      ensures Contents() == old(Contents()) + [Elem(node.id, node.payload)]
    {
      if predecessor != null {
        predecessor.nextEntry := node;
      } else {
        firstElement := node;
      }
      nodes := nodes + [node];
    }

    /** appendUniqueListElement */
    method AppendUniqueListElement(payload: string, payloadSize: nat, id: string) returns (code: nat)
      requires Valid() && payloadSize == |payload|
      modifies this, nodes
      ensures Valid() && forall x :: x in nodes ==> x in old(nodes) || fresh(x)
      ensures (Contents(), Code(code)) == Apply(AppendUnique(id, payload), old(Contents()))
    {
      var predecessor, element := UseElementByID(id);
      if element == null {
        var node := new ListElement(payload, payloadSize, id);
        LinkIn(predecessor, node);
        code := 0;
      } else {
        code := 1;
      }
    }

    /** appendListElement */
    method AppendListElement(payload: string, payloadSize: nat, id: string)
      requires Valid() && payloadSize == |payload|
      modifies this, nodes
      ensures Valid() && forall x :: x in nodes ==> x in old(nodes) || fresh(x)
      ensures (Contents(), Void) == Apply(Append(id, payload), old(Contents()))
    {
      var node := new ListElement(payload, payloadSize, id);
      var next := firstElement;
      if next != null {
        var current := next;
        next := current.nextEntry;
        ghost var i := 0;
        while next != null
          invariant i < |nodes| && current == nodes[i] && next == NodeAt(i + 1)
          decreases |nodes| - i
        {
          current := next;
          next := current.nextEntry;
          i := i + 1;
        }
        current.nextEntry := node;
      } else {
        firstElement := node;
      }
      nodes := nodes + [node];
      assert Contents() == old(Contents()) + [Elem(id, payload)];
    }

    /** Take the element after `predecessor` (null: the header) out of the chain. */
    method Unlink(predecessor: ListElement?, element: ListElement, ghost i: nat)
      requires Valid() && i < |nodes| && element == nodes[i]
      requires predecessor == if i == 0 then null else nodes[i - 1]
      modifies this, nodes
      ensures Valid() && nodes == Without(old(nodes), i) && Contents() == Without(old(Contents()), i)
    {
      ghost var was, had := nodes, Contents();
      var next := element.nextEntry;
      if predecessor != null {
        predecessor.nextEntry := next;
      } else {
        firstElement := next;
      }
      nodes := Without(was, i);
      forall j | 0 <= j < |nodes| ensures nodes[j].nextEntry == NodeAt(j + 1) {
        if j + 1 < i { assert nodes[j + 1] == was[j + 1]; }
      }
      assert Contents() == Without(had, i);
    }

    /** removeListElementByID */
    method RemoveListElementByID(id: string) returns (code: nat)
      requires Valid()
      modifies this, nodes
      ensures Valid() && (forall x :: x in nodes ==> x in old(nodes))
      ensures (Contents(), Code(code)) == Apply(RemoveById(id), old(Contents()))
    {
      code := 1;
      var predecessor, element := UseElementByID(id);
      if element != null {
        Unlink(predecessor, element, Find(Contents(), id));
        code := 0;
      }
    }

    /** Replace the payload of one element. */
    method Overwrite(element: ListElement, payload: string, payloadSize: nat, ghost i: nat)
      requires Valid() && i < |nodes| && element == nodes[i] && payloadSize == |payload|
      modifies element
      ensures Valid() && Contents() == old(Contents())[i := Elem(old(element.id), payload)]
    {
      element.payload := payload;
      element.payloadSize := payloadSize;
    }

    /** updateListElementByID */
    method UpdateListElementByID(payload: string, payloadSize: nat, id: string) returns (code: nat)
      requires Valid() && payloadSize == |payload|
      modifies nodes
      ensures Valid()
      ensures (Contents(), Code(code)) == Apply(Update(id, payload), old(Contents()))
    {
      code := 1;
      var _, element := UseElementByID(id);
      if element != null {
        Overwrite(element, payload, payloadSize, Find(Contents(), id));
        code := 0;
      }
    }

    /** removeFirstListElement */
    method RemoveFirstListElement()
      requires Valid()
      modifies this
      ensures Valid() && (forall x :: x in nodes ==> x in old(nodes))
      ensures (Contents(), Void) == Apply(RemoveFirst, old(Contents()))
    {
      var first := firstElement;
      if first != null {
        firstElement := first.nextEntry;
        nodes := nodes[1..];
        assert Contents() == old(Contents())[1..];
      }
    }

    /** removeAllElements */
    method RemoveAllElements()
      requires Valid()
      modifies this
      ensures Valid() && (Contents(), Void) == Apply(RemoveAll, old(Contents()))
    {
      var first := firstElement;
      while first != null
        invariant Valid() && first == firstElement && (forall x :: x in nodes ==> x in old(nodes))
        decreases |nodes|
      {
        firstElement := first.nextEntry;
        nodes := nodes[1..];
        first := firstElement;
      }
    }
  }

  lemma {:induction false} IdTextSnoc(l: seq<Elem>, e: Elem)
    ensures IdText(l + [e]) == IdText(l) + "\n" + e.id
  {
    if l == [] {
      assert l + [e] == [e];
      assert IdText([e]) == "\n" + e.id + "" == "" + "\n" + e.id;
    } else {
      IdTextSnoc(l[1..], e);
      assert (l + [e])[1..] == l[1..] + [e];
      assert "\n" + l[0].id + (IdText(l[1..]) + "\n" + e.id) == ("\n" + l[0].id + IdText(l[1..])) + "\n" + e.id;
    }
  }
}
