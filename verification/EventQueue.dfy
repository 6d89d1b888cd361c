/** The bounded event queue of eventqueue.cpp: a doubly linked list that owns copies of its payloads. */
module EventQueue {
  import opened Words
  import opened Options
  import Md5Checksum

  /** An event's value: its payload is there only if there is a buffer and a positive length. */
  datatype Record = Record(typ: Word, length: Word, payload: Option<seq<Byte>>)

  // ---- The specification: a bounded first-in first-out sequence ----

  function Put(queue: seq<Record>, maxcount: int, r: Record): (seq<Record>, bool) {
    if |queue| >= maxcount then (queue, false) else (queue + [r], true)
  }

  function Take(queue: seq<Record>): (seq<Record>, Option<Record>) {
    if queue == [] then (queue, None) else (queue[1..], Some(queue[0]))
  }

  class ReceivedData {
    var Type: Word
    var Data: array?<Byte>
    var Length: Word

    constructor ()
      ensures Data == null
    {
      Data := null;
    }

    predicate WellFormed()
      reads this, Data
    {
      Data != null ==> Length <= Data.Length
    }

    function Value(): Record
      requires WellFormed()
      reads this, Data
    {
      Record(Type, Length, if Data != null && Length > 0 then Some(Data[..Length]) else None)
    }

    /** A deep copy: nothing of it is shared, and a payload is copied whenever there is one. */
    method Copy() returns (copy: ReceivedData)
      requires WellFormed()
      ensures copy.Type == Type && copy.Length == Length
      ensures Data != null && Length > 0 ==>
        copy.Data != null && copy.Data.Length == Length && copy.Data[..Length] == Data[..Length]
      ensures Data == null || Length == 0 ==> copy.Data == null
      ensures fresh(copy) && copy.WellFormed() && copy.Value() == Value()
      ensures copy.Data != null ==> fresh(copy.Data)
    {
      copy := new ReceivedData();
      copy.Type := Type;
      copy.Length := Length;
      if Data != null && Length > 0 {
        copy.Data := new Byte[Length];
        Md5Checksum.Memcpy(copy.Data, 0, Data[..Length]);
        assert copy.Data[..Length] == Data[..Length];
      }
    }
  }

  /** An event is its type, its length and, if there is a buffer and a positive length, that many bytes:
      events of the same value agree in all of these. */
  lemma ValueIsFields(a: ReceivedData, b: ReceivedData)
    requires a.WellFormed() && b.WellFormed()
    ensures a.Value() == b.Value() <==>
      && a.Type == b.Type && a.Length == b.Length
      && (a.Length > 0 ==> (a.Data == null <==> b.Data == null))
      && (a.Length > 0 && a.Data != null && b.Data != null ==> a.Data[..a.Length] == b.Data[..b.Length])
  {
  }

  class DataNode {
    const data: ReceivedData
    ghost const value: Record  // what data holds, from the node's creation on
    var Next: DataNode?
    var Pre: DataNode?

    /** Copies the data; without any, the node's type and length are whatever they happen to be. */
    constructor (source: ReceivedData?, next: DataNode?, pre: DataNode?)
      requires source != null ==> source.WellFormed()
      ensures Next == next && Pre == pre
      ensures if source != null then value == source.Value() else value.payload.None?
      ensures fresh(data) && Keeps() && (data.Data != null ==> fresh(data.Data))
    {
      var copy: ReceivedData;
      if source != null {
        copy := source.Copy();
      } else {
        copy := new ReceivedData();
      }
      data, value, Next, Pre := copy, copy.Value(), next, pre;
    }

    ghost predicate Keeps()
      reads data, data.Data
    {
      data.WellFormed() && data.Value() == value
    }
  }

  ghost function Values(nodes: seq<DataNode>): (values: seq<Record>)
    ensures |values| == |nodes|
  {
    seq(|nodes|, i requires 0 <= i < |nodes| => nodes[i].value)
  }

  lemma OneMoreValue(nodes: seq<DataNode>, node: DataNode)
    ensures Values(nodes + [node]) == Values(nodes) + [node.value]
  {
  }

  class Queue {
    const maxcount: int
    var count: int
    var first: DataNode?
    var last: DataNode?           // stale once the queue has run empty
    ghost var nodes: seq<DataNode>
    ghost var payloads: set<object>
    ghost var deleted: seq<DataNode>

    /** The list: forward and backward links are mutually inverse, the count is the length, and the
        end pointers are right wherever the code relies on them. */
    ghost predicate Linked()
      reads this, nodes
    {
      && count == |nodes|
      && first == (if nodes == [] then null else nodes[0])
      && (nodes != [] ==> last == nodes[|nodes| - 1])
      && (forall i, j | 0 <= i < j < |nodes| :: nodes[i] != nodes[j])
      && (forall i {:trigger nodes[i].Next} | 0 <= i < |nodes| - 1 :: nodes[i].Next == nodes[i + 1])
      && (forall i {:trigger nodes[i].Pre} | 0 < i < |nodes| :: nodes[i].Pre == nodes[i - 1])
      && (nodes != [] ==> nodes[0].Pre == null && nodes[|nodes| - 1].Next == null)
    }

    /** The node's payload belongs to the queue alone and still holds what it held at first. */
    ghost predicate Owned(node: DataNode)
      reads this`payloads, payloads
    {
      && node.data in payloads && (node.data.Data != null ==> node.data.Data in payloads)
      && node.Keeps() && node.value == node.data.Value()
    }

    ghost predicate Valid()
      reads this, nodes, payloads
    {
      && Linked()
      && (nodes != [] ==> |nodes| <= maxcount)
      && (forall node <- nodes :: Owned(node) && node !in deleted)
    }

    ghost function Contents(): seq<Record>
      reads this
    {
      Values(nodes)
    }

    constructor (size: int)
      ensures Valid() && Contents() == [] && maxcount == size && payloads == {} && deleted == []
    {
      maxcount := size;
      count := 0;
      first, last := null, null;
      nodes, payloads, deleted := [], {}, [];
    }

    /** Queues a copy of the data, or of nothing in particular for a null pointer. */
    method Enqueue(data: ReceivedData?) returns (ok: bool)
      requires Valid() && (data != null ==> data.WellFormed())
      modifies this, nodes
      ensures Valid()
      ensures ok <==> |old(Contents())| < maxcount
      ensures data != null ==> (Contents(), ok) == Put(old(Contents()), maxcount, old(data.Value()))
      ensures data == null ==>
        if !ok then Contents() == old(Contents())
        else exists r: Record :: r.payload.None? && Contents() == old(Contents()) + [r]
      ensures fresh(payloads - old(payloads)) && deleted == old(deleted)
      ensures !ok ==> nodes == old(nodes)
      ensures ok ==> |nodes| > 0 && nodes[..|nodes| - 1] == old(nodes) && fresh(nodes[|nodes| - 1])
    {
      hide Values;
      if count >= maxcount {
        return false;
      }
      var tmp := Prepare(data);
      Own(tmp);
      ok := true;
      OneMoreValue(old(nodes), tmp);
    }

    /** A node to hang at the end, with a copy of the data. */
    method Prepare(data: ReceivedData?) returns (tmp: DataNode)
      requires Valid() && (data != null ==> data.WellFormed())
      ensures fresh(tmp) && fresh(tmp.data) && (tmp.data.Data != null ==> fresh(tmp.data.Data)) && tmp.Keeps()
      ensures tmp.Next == null && tmp.Pre == if nodes == [] then null else nodes[|nodes| - 1]
      ensures if data != null then tmp.value == data.Value() else tmp.value.payload.None?
    {
      if count == 0 {
        tmp := new DataNode(data, null, null);
      } else {
        tmp := new DataNode(data, null, last);
      }
    }

    /** Takes a prepared node and its payload into the queue. */
    method Own(tmp: DataNode)
      requires Valid() && |nodes| < maxcount && tmp.Keeps() && tmp !in nodes && tmp !in deleted && tmp.Next == null
      requires tmp.Pre == if nodes == [] then null else nodes[|nodes| - 1]
      modifies this, nodes
      ensures Valid() && nodes == old(nodes) + [tmp] && deleted == old(deleted)
      ensures payloads == old(payloads) + {tmp.data} + (if tmp.data.Data == null then {} else {tmp.data.Data})
    {
      Append(tmp);
      payloads := payloads + {tmp.data} + (if tmp.data.Data == null then {} else {tmp.data.Data});
      forall node <- old(nodes) ensures Owned(node) {
        assert old(Owned(node));
      }
    }

    /** Hangs a prepared node at the end of the list. */
    method Append(tmp: DataNode)
      requires Linked() && tmp !in nodes && tmp.Next == null
      requires tmp.Pre == if nodes == [] then null else nodes[|nodes| - 1]
      modifies this`count, this`first, this`last, this`nodes, nodes[|nodes| - Min(1, |nodes|)..]
      ensures Linked() && nodes == old(nodes) + [tmp]
    {
      if count == 0 {
        first := tmp;
        last := tmp;
      } else {
        last.Next := tmp;
        last := tmp;
      }
      count := count + 1;
      nodes := nodes + [tmp];
    }

    method Dequeue() returns (data: ReceivedData?)
      requires Valid()
      modifies this, nodes
      ensures Valid()
      ensures data == null <==> old(nodes) == []
      ensures data == null ==> nodes == old(nodes) && deleted == old(deleted)
      ensures data != null ==> fresh(data) && data.WellFormed() && (data.Data != null ==> fresh(data.Data))
      ensures data != null ==> (Contents(), Some(data.Value())) == Take(old(Contents()))
      ensures data != null ==> deleted == old(deleted) + old(nodes)[..1] && nodes == old(nodes)[1..]
      ensures payloads == old(payloads)
    {
      if count <= 0 {
        return null;
      }
      var tmp := first;
      assert tmp in nodes && Owned(tmp);
      data := tmp.data.Copy();
      Detach();
      deleted := deleted + [tmp];
      forall node <- nodes ensures Owned(node) {
        assert node in old(nodes) && old(Owned(node));
      }
      assert Contents() == old(Contents())[1..];
    }

    /** Unhangs the first node. */
    method Detach()
      requires Linked() && nodes != []
      modifies this`count, this`first, this`nodes, nodes[1..Min(2, |nodes|)]
      ensures Linked() && nodes == old(nodes)[1..]
    {
      first := first.Next;
      if first != null {
        first.Pre := null;
      }
      count := count - 1;
      nodes := nodes[1..];
    }

    method GetCount() returns (n: int)
      requires Valid()
      ensures n == |Contents()|
    {
      n := count;
    }

    /** The destructor deletes every node once, in order, and follows no link of a deleted node. */
    method Destroy()
      requires Valid()
      modifies this`deleted
      ensures deleted == old(deleted) + nodes
    {
      var tmp := first;
      if tmp != null {
        ghost var i := 0;
        while tmp.Next != null
          invariant 0 <= i < |nodes| && tmp == nodes[i] && Linked()
          invariant deleted == old(deleted) + nodes[..i]
          invariant tmp !in deleted
          decreases |nodes| - i
        {
          tmp := tmp.Next;
          assert tmp !in deleted && tmp.Pre == nodes[i] && tmp.Pre !in deleted;
          deleted := deleted + [tmp.Pre];
          i := i + 1;
        }
        deleted := deleted + [tmp];
      }
    }
  }

  /** What is put into an empty queue is what is taken out of it, field by field and byte by byte. */
  method OneEvent(queue: Queue, data: ReceivedData) returns (taken: ReceivedData?)
    requires queue.Valid() && queue.Contents() == [] && queue.maxcount > 0 && data.WellFormed()
    modifies queue, queue.nodes
    ensures queue.Valid() && queue.Contents() == []
    ensures taken != null && fresh(taken) && taken.Type == old(data.Type) && taken.Length == old(data.Length)
    ensures old(data.Data != null && data.Length > 0) ==>
      && taken.Data != null && taken.Length <= taken.Data.Length
      && taken.Data[..taken.Length] == old(data.Data[..data.Length])
    ensures old(data.Data == null) && taken.Length > 0 ==> taken.Data == null
  {
    ghost var value := data.Value();
    var ok := queue.Enqueue(data);
    taken := queue.Dequeue();
    assert taken.Value() == value;
  }
}
