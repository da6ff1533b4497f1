/** Buffer headers as the objects they are, updated in place. */
module BufferHeaders {
  import opened Wrappers
  import opened CInt
  import opened Sequences
  import opened BufferRefs

  class BufferHeader {
    var refcount: int
    var reference: BufferHeader?
    var cmd: nat
    var data: nat
    var allocSize: nat
    var length: nat
    var offset: nat
    var flags: nat
    var pts: int
    var dts: int
    var typ: nat

    function Fields(): BufferRefs.Fields
      reads this
    {
      BufferRefs.Fields(cmd, data, allocSize, length, offset, flags, pts, dts, typ)
    }

    function View(): Node<BufferHeader>
      reads this
    {
      var source: Option<BufferHeader> := if reference == null then None else Some(reference);
      Node(refcount, source, Fields())
    }

    method Reset()
      modifies this
      ensures View() == old(View()).(fields := ResetFields(old(Fields())))
      ensures length == 0 && offset == 0 && flags == 0 && pts == TIME_UNKNOWN && dts == TIME_UNKNOWN
      ensures cmd == old(cmd) && data == old(data) && allocSize == old(allocSize) && typ == old(typ)
      ensures refcount == old(refcount) && reference == old(reference)
    {
      length, offset, flags := 0, 0, 0;
      pts, dts := TIME_UNKNOWN, TIME_UNKNOWN;
    }

    method Acquire()
      modifies this`refcount
      ensures View() == old(View()).(refcount := old(refcount) + 1)
    {
      refcount := refcount + 1;
    }

    /** Make this header a second view of src's payload, unless it already refers to a header. */
    method ReplicateFrom(src: BufferHeader) returns (status: Status)
      modifies this, src`refcount
      ensures status == if old(reference) != null then EInval else Success
      ensures status == EInval ==> View() == old(View()) && src.refcount == old(src.refcount)
      ensures status == Success ==>
                && View() == Node(old(refcount) + (if src == this then 1 else 0), Some(src), old(src.Fields()))
                && src.refcount == old(src.refcount) + 1
    {
      if reference != null {
        return EInval;
      }
      src.refcount := src.refcount + 1;
      reference := src;
      cmd, allocSize, data := src.cmd, src.allocSize, src.data;
      offset, length, flags := src.offset, src.length, src.flags;
      pts, dts := src.pts, src.dts;
      typ := src.typ;
      return Success;
    }
  }

  /** A set of headers and the queue of the pool they belong to. */
  class HeaderPool {
    var queue: seq<BufferHeader>
    ghost const all: set<BufferHeader>
    ghost var clients: map<BufferHeader, nat>
    ghost var postponed: set<BufferHeader>
    ghost var rank: map<BufferHeader, nat>

    /** A new pool queues all its headers, each with the pool's own reference. */
    constructor (headers: seq<BufferHeader>)
      requires Distinct(headers) && forall h :: h in headers ==> h.refcount == 1 && h.reference == null
      ensures all == (set h | h in headers) && queue == headers
      ensures FreshPool(View())
    {
      queue := headers;
      all := set h | h in headers;
      clients := map h | h in headers :: 0;
      postponed := {};
      rank := map h | h in headers :: 0;
    }

    ghost function View(): Heap<BufferHeader>
      reads this, all
    {
      Heap(map h | h in all :: h.View(), clients, queue, postponed, rank)
    }

    /** The invariant of the reference counts holds between operations. */
    ghost predicate Valid()
      reads this, all
    {
      Consistent(View())
    }

    /** Get the oldest header from the pool's queue for a client. */
    method Take() returns (header: Option<BufferHeader>)
      requires Valid()
      modifies this`queue, this`clients
      ensures Valid()
      ensures header == if old(queue) == [] then None else Some(old(queue)[0])
      ensures View() == if old(queue) == [] then old(View()) else Apply(old(View()), Op.Take)
    {
      if queue == [] { return None; }
      ApplyKeeps(View(), Op.Take);
      var first := TakeFirst();
      return Some(first);
    }

    method TakeFirst() returns (first: BufferHeader)
      requires queue != []
      modifies this`queue, this`clients
      ensures first == old(queue)[0]
      ensures View() == old(View()).(pool := old(queue)[1..], clients := old(clients)[first := 1])
    {
      first := queue[0];
      queue := queue[1..];
      clients := clients[first := 1];
    }

    /** A client takes another reference. */
    method Acquire(h: BufferHeader)
      requires Valid() && Legal(View(), AcquireOp(h))
      modifies this`clients, h`refcount
      ensures Valid() && View() == Apply(old(View()), AcquireOp(h))
    {
      ApplyKeeps(View(), AcquireOp(h));
      ghost var after := Apply(View(), AcquireOp(h));
      Increment(h);
      SetClients(clients[h := clients[h] + 1]);
      assert View() == after;
    }

    method Increment(h: BufferHeader)
      requires h in all
      modifies h`refcount
      ensures View() == Incremented(old(View()), h)
    {
      h.Acquire();
    }

    /** A client gives up a reference. `delay` says for which headers the pre-release callback
        asks to delay the release. */
    method ClientRelease(h: BufferHeader, delay: set<BufferHeader>)
      requires Valid() && Legal(View(), ReleaseOp(h, delay))
      modifies this`queue, this`postponed, this`clients, all
      ensures Valid() && View() == Apply(old(View()), ReleaseOp(h, delay))
    {
      ApplyKeeps(View(), ReleaseOp(h, delay));
      SetClients(clients[h := clients[h] - 1]);
      Release(h, delay);
    }

    ghost method SetClients(held: map<BufferHeader, nat>)
      modifies this`clients
      ensures View() == old(View()).(clients := held)
    {
      clients := held;
    }

    /** Whoever delayed a release finishes it. */
    method FinishRelease(h: BufferHeader, delay: set<BufferHeader>)
      requires Valid() && Legal(View(), ContinueOp(h, delay))
      modifies this`queue, this`postponed, all
      ensures Valid() && View() == Apply(old(View()), ContinueOp(h, delay))
    {
      ApplyKeeps(View(), ContinueOp(h, delay));
      SetPostponed(postponed - {h});
      ReleaseContinue(h, delay);
    }

    ghost method SetPostponed(hs: set<BufferHeader>)
      modifies this`postponed
      ensures View() == old(View()).(postponed := hs)
    {
      postponed := hs;
    }

    method Release(h: BufferHeader, delay: set<BufferHeader>)
      requires h in all && Closed(View())
      modifies this`queue, this`postponed, all
      ensures View() == BufferRefs.Release(old(View()), h, delay)
      decreases rank[h], 1
    {
      var left := Decrement(h);
      if left != 0 { return; }
      if h in delay {
        SetPostponed(postponed + {h});
      } else {
        ReleaseContinue(h, delay);
      }
    }

    method Decrement(h: BufferHeader) returns (left: int)
      requires h in all
      modifies h`refcount
      ensures View() == Decremented(old(View()), h) && left == View().node[h].refcount
    {
      h.refcount := h.refcount - 1;
      left := h.refcount;
    }

    method ReleaseContinue(h: BufferHeader, delay: set<BufferHeader>)
      requires h in all && Closed(View())
      modifies this`queue, this`postponed, all
      ensures View() == BufferRefs.Continue(old(View()), h, delay)
      decreases rank[h], 0
    {
      ResetHeader(h);
      if h.reference != null {
        Release(h.reference, delay);
      }
      Recycle(h);
    }

    method ResetHeader(h: BufferHeader)
      requires h in all
      modifies h
      ensures h.reference == old(h.reference)
      ensures View() == Cleared(old(View()), h)
    {
      h.Reset();
    }

    /** The end of a release: forget the source, and the pool's release callback. */
    method Recycle(h: BufferHeader)
      requires h in all
      modifies h, this`queue
      ensures View() == Recycled(old(View()), h)
    {
      h.reference := null;
      h.refcount := 1;
      queue := queue + [h];
    }

    /** Make dest a replicate of src. */
    method Replicate(dest: BufferHeader, src: BufferHeader) returns (status: Status)
      requires dest in all && src in all && Closed(View())
      modifies dest, src`refcount, this`rank
      ensures status == if old(View()).node[dest].reference.Some? then EInval else Success
      ensures View().node == if status == EInval then old(View()).node else Linked(old(View()), dest, src).node
      ensures !Reaches(old(View()), src, dest) ==> (View(), status) == BufferRefs.Replicate(old(View()), dest, src)
    {
      ghost var lifted := if Reaches(View(), src, dest) then rank else Rerank(View(), dest, src);
      status := LinkNodes(dest, src);
      Rank(if status == Success then lifted else rank);
    }

    ghost method Rank(newRank: map<BufferHeader, nat>)
      modifies this`rank
      ensures View() == old(View()).(rank := newRank)
    {
      rank := newRank;
    }

    method LinkNodes(dest: BufferHeader, src: BufferHeader) returns (status: Status)
      requires dest in all && src in all
      modifies dest, src`refcount
      ensures status == if old(View()).node[dest].reference.Some? then EInval else Success
      ensures var g := old(View());
              var n := g.node[src := g.node[src].(refcount := g.node[src].refcount + 1)];
              View() == if status == EInval then g else g.(node := n[dest := Node(n[dest].refcount, Some(src), n[src].fields)])
    {
      status := dest.ReplicateFrom(src);
    }

    /** A client replicates between two headers it holds, without closing a cycle. */
    method ClientReplicate(dest: BufferHeader, src: BufferHeader) returns (status: Status)
      requires Valid() && Legal(View(), ReplicateOp(dest, src))
      modifies dest, src`refcount, this`rank
      ensures Valid() && View() == Apply(old(View()), ReplicateOp(dest, src))
      ensures status == if old(dest.reference) != null then EInval else Success
    {
      ApplyKeeps(View(), ReplicateOp(dest, src));
      status := Replicate(dest, src);
    }
  }
}
