/** The zero-copy component together with the headers it handles: sending buffers replicates
    headers, while clients go on taking, acquiring, releasing and replicating theirs. */
module ZeroCopy {
  import opened Wrappers
  import opened BufferRefs
  import opened Runs
  import P = Passthrough

  datatype System<H> = System(ports: P.State<H>, heap: Heap<H>)

  datatype Act<H> =
    | SendBuffer(side: P.Side, h: H, reported: bool)
    | FlushPort(side: P.Side)
    | Client(op: Op<H>)

  ghost predicate Queued<H>(s: System<H>, h: H) {
    h in s.ports.inQueue || h in s.ports.outQueue
  }

  /** The input and the output that meet when h is sent. */
  function Meeting<H>(s: System<H>, side: P.Side, h: H): Option<(H, H)> {
    if s.ports.error then None else P.Matched(s.ports, side, h)
  }

  /** Clients send buffers they hold and have not sent already, do not give up their only
      reference to a buffer the component has, and close no cycle of references. */
  ghost predicate Legal<H>(s: System<H>, act: Act<H>)
    requires Closed(s.heap)
  {
    match act
    case SendBuffer(side, h, _) =>
      && h in s.heap.node && s.heap.clients[h] > 0 && !Queued(s, h)
      && (Meeting(s, side, h).Some? ==>
            var (i, o) := Meeting(s, side, h).value;
            BufferRefs.Legal(s.heap, ReplicateOp(o, i)))
    case FlushPort(_) => true
    case Client(op) => BufferRefs.Legal(s.heap, op) && (op.ReleaseOp? && Queued(s, op.h) ==> s.heap.clients[op.h] > 1)
  }

  /** The input is consumed: its length becomes 0. */
  ghost function Consumed<H>(g: Heap<H>, i: H): (r: Heap<H>)
    requires i in g.node
    ensures SameReferences(g, r) && (Closed(g) ==> Closed(r))
  {
    g.(node := g.node[i := g.node[i].(fields := g.node[i].fields.(length := 0))])
  }

  /** Replicating input i to output o in the course of a send. */
  ghost function Paired<H>(g: Heap<H>, i: H, o: H): (r: Heap<H>)
    requires Closed(g) && BufferRefs.Legal(g, ReplicateOp(o, i))
    ensures Closed(r) && r.clients == g.clients
  {
    if g.node[o].reference.Some? then g else Consumed(BufferRefs.Apply(g, ReplicateOp(o, i)), i)
  }

  ghost function Apply<H>(s: System<H>, act: Act<H>): (r: System<H>)
    requires Closed(s.heap) && Legal(s, act)
    ensures Closed(r.heap)
  {
    match act
    case SendBuffer(side, h, reported) =>
      var m := Meeting(s, side, h);
      if m.None? then System(P.Send(s.ports, side, h, false, reported), s.heap)
      else
        var (i, o) := m.value;
        System(P.Send(s.ports, side, h, s.heap.node[o].reference.None?, reported), Paired(s.heap, i, o))
    case FlushPort(side) => System(P.Flush(s.ports, side), s.heap)
    case Client(op) => System(s.ports, BufferRefs.Apply(s.heap, op))
  }

  // ---------------------------------------------------------------- invariant

  /** Every queued buffer is held by the client that sent it. */
  ghost predicate HeldWhileQueued<H(!new)>(s: System<H>)
    requires Closed(s.heap)
  {
    forall h :: Queued(s, h) ==> h in s.heap.node && s.heap.clients[h] > 0
  }

  ghost predicate Inv<H(!new)>(s: System<H>) {
    Consistent(s.heap) && HeldWhileQueued(s)
  }

  lemma ConsumedKeeps<H>(g: Heap<H>, i: H)
    requires Consistent(g) && i in g.node
    ensures Consistent(Consumed(g, i))
  {
    SameCounts(g, Consumed(g, i), {}, None);
  }

  lemma PairedKeeps<H>(g: Heap<H>, i: H, o: H)
    requires Consistent(g) && BufferRefs.Legal(g, ReplicateOp(o, i))
    ensures Consistent(Paired(g, i, o))
  {
    if g.node[o].reference.None? {
      ApplyKeeps(g, ReplicateOp(o, i));
      ConsumedKeeps(BufferRefs.Apply(g, ReplicateOp(o, i)), i);
    }
  }

  /** Client operations leave every buffer held that was held and not released for the last time. */
  lemma ClientKeepsHeld<H>(g: Heap<H>, op: Op<H>, h: H)
    requires Consistent(g) && BufferRefs.Legal(g, op) && h in g.node && g.clients[h] > 0
    requires op.ReleaseOp? && op.h == h ==> g.clients[h] > 1
    ensures h in BufferRefs.Apply(g, op).node && h in BufferRefs.Apply(g, op).clients && BufferRefs.Apply(g, op).clients[h] > 0
  {
    match op
    case Take =>
    case AcquireOp(_) =>
    case ReleaseOp(x, delay) => ReleaseKeepsClients(GivenUp(g, x), x, delay);
    case ContinueOp(x, delay) => ContinueKeepsClients(g.(postponed := g.postponed - {x}), x, delay);
    case ReplicateOp(_, _) =>
  }

  lemma ReleaseKeepsClients<H>(g: Heap<H>, x: H, delay: set<H>)
    requires Closed(g) && x in g.node
    ensures Release(g, x, delay).clients == g.clients && Release(g, x, delay).node.Keys == g.node.Keys
  {
  }

  lemma ContinueKeepsClients<H>(g: Heap<H>, x: H, delay: set<H>)
    requires Closed(g) && x in g.node
    ensures Continue(g, x, delay).clients == g.clients && Continue(g, x, delay).node.Keys == g.node.Keys
  {
  }

  lemma ClientKeeps<H(!new)>(s: System<H>, op: Op<H>)
    requires Inv(s) && Legal(s, Client(op))
    ensures Inv(Apply(s, Client(op)))
  {
    ApplyKeeps(s.heap, op);
    var t := Apply(s, Client(op));
    forall h | Queued(t, h) ensures h in t.heap.node && t.heap.clients[h] > 0 {
      assert Queued(s, h);
      ClientKeepsHeld(s.heap, op, h);
    }
  }

  lemma SendKeeps<H(!new)>(s: System<H>, side: P.Side, h: H, reported: bool)
    requires Inv(s) && Legal(s, SendBuffer(side, h, reported))
    ensures Inv(Apply(s, SendBuffer(side, h, reported)))
  {
    var m, t := Meeting(s, side, h), Apply(s, SendBuffer(side, h, reported));
    if m.Some? { PairedKeeps(s.heap, m.value.0, m.value.1); }
    assert t.heap.clients == s.heap.clients;
    forall x | Queued(t, x) ensures x == h || Queued(s, x) {
      QueuedBefore(s.ports, side, h, m.Some? && s.heap.node[m.value.1].reference.None?, reported, x);
    }
  }

  /** A send queues nothing but the buffer sent and buffers queued before. */
  lemma QueuedBefore<H>(s: P.State<H>, side: P.Side, h: H, replicated: bool, reported: bool, x: H)
    requires var t := P.Send(s, side, h, replicated, reported); x in t.inQueue || x in t.outQueue
    ensures x == h || x in s.inQueue || x in s.outQueue
  {
  }

  lemma ActKeeps<H(!new)>(s: System<H>, act: Act<H>)
    requires Inv(s) && Legal(s, act)
    ensures Inv(Apply(s, act))
  {
    match act
    case SendBuffer(side, h, reported) => SendKeeps(s, side, h, reported);
    case FlushPort(_) =>
    case Client(op) => ClientKeeps(s, op);
  }

  // ---------------------------------------------------------------- whole runs

  ghost predicate Step<H>(s: System<H>, act: Act<H>, t: System<H>) {
    Closed(s.heap) && Legal(s, act) && t == Apply(s, act)
  }

  ghost predicate Initial<H>(s: System<H>) {
    s.ports == P.State([], [], false, [], []) && FreshPool(s.heap)
  }

  /** The step relation as a value. */
  ghost function Steps<H>(): (System<H>, Act<H>, System<H>) -> bool {
    (s, act, t) => Step(s, act, t)
  }

  ghost predicate IsRun<H>(ss: seq<System<H>>, acts: seq<Act<H>>) {
    Follows(Steps(), ss, acts) && Initial(ss[0])
  }

  lemma StepKeeps<H(!new)>(s: System<H>, act: Act<H>, t: System<H>)
    requires Inv(s) && Step(s, act, t)
    ensures Inv(t)
  {
    ActKeeps(s, act);
  }

  lemma InitialInv<H(!new)>(s: System<H>)
    requires Initial(s)
    ensures Inv(s)
  {
    FreshIsConsistent(s.heap);
  }

  lemma RunInv<H(!new)>(ss: seq<System<H>>, acts: seq<Act<H>>, k: nat)
    requires IsRun(ss, acts) && k < |ss|
    ensures Inv(ss[k])
  {
    InitialInv(ss[0]);
    forall s, act, t: System<H> | Inv(s) && Step(s, act, t) ensures Inv(t) { StepKeeps(s, act, t); }
    Along(Steps(), s => Inv(s), _ => true, ss, acts, 0, k);
  }

  /** What the component itself sees of an action. */
  ghost function Seen<H>(s: System<H>, act: Act<H>): seq<P.Op<H>> {
    match act
    case SendBuffer(side, h, reported) =>
      var m := Meeting(s, side, h);
      [P.SendOp(side, h, m.Some? && m.value.1 in s.heap.node && s.heap.node[m.value.1].reference.None?, reported)]
    case FlushPort(side) => [P.FlushOp(side)]
    case Client(_) => []
  }

  ghost function SeenOps<H>(ss: seq<System<H>>, acts: seq<Act<H>>, k: nat): seq<P.Op<H>>
    requires k <= |acts| && k <= |ss|
  {
    Collect((s, act) => Seen(s, act), ss, acts, k)
  }

  lemma SeenStep<H>(s: System<H>, act: Act<H>, t: System<H>, before: seq<P.Op<H>>)
    requires Step(s, act, t) && s.ports == P.Run(before)
    ensures t.ports == P.Run(before + Seen(s, act))
  {
    SeenApplies(s, act, t);
    if act.Client? {
      assert before + Seen(s, act) == before;
    } else {
      P.RunMore(before, Seen(s, act)[0]);
    }
  }

  lemma SeenApplies<H>(s: System<H>, act: Act<H>, t: System<H>)
    requires Step(s, act, t)
    ensures if act.Client? then t.ports == s.ports && Seen(s, act) == []
            else |Seen(s, act)| == 1 && t.ports == P.Apply(s.ports, Seen(s, act)[0])
  {
  }

  /** The component's part of a run is a run of the component, whatever the clients do: what is
      proved of its pairs, queues and returned buffers holds here too. */
  lemma PortsRun<H(!new)>(ss: seq<System<H>>, acts: seq<Act<H>>, k: nat)
    requires IsRun(ss, acts) && k < |ss|
    ensures ss[k].ports == P.Run(SeenOps(ss, acts, k))
  {
    forall s: System<H>, act, t: System<H>, before | s.ports == P.Run(before) && Step(s, act, t)
      ensures t.ports == P.Run(before + Seen(s, act))
    {
      SeenStep(s, act, t, before);
    }
    AlongCollected(Steps(), (s, act) => Seen(s, act), (s: System<H>, ops) => s.ports == P.Run(ops), ss, acts, k);
  }

  /** Until o is recycled it refers to i. */
  ghost predicate RefersTo<H>(g: Heap<H>, o: H, i: H) {
    o in g.node && g.node[o].reference == Some(i)
  }

  /** o has become a second view of what i was, and i has been consumed. */
  ghost predicate Replicates<H>(g: Heap<H>, r: Heap<H>, i: H, o: H) {
    && i in g.node && RefersTo(r, o, i) && r.node[o].fields == g.node[i].fields
    && i in r.node && r.node[i].fields == g.node[i].fields.(length := 0) && r.node[i].reference == g.node[i].reference
  }

  lemma PairedReplicates<H>(g: Heap<H>, i: H, o: H)
    requires Closed(g) && BufferRefs.Legal(g, ReplicateOp(o, i)) && g.node[o].reference.None?
    ensures Replicates(g, Paired(g, i, o), i, o)
  {
    assert i != o;
  }

  lemma PairingReplicates<H>(s: System<H>, act: Act<H>, t: System<H>, i: H, o: H)
    requires Step(s, act, t) && t.ports.pairs == s.ports.pairs + [(i, o)]
    ensures Replicates(s.heap, t.heap, i, o)
  {
    match act
    case SendBuffer(side, h, reported) =>
      PairsGrow(s.ports, side, h, Meeting(s, side, h).Some? && s.heap.node[Meeting(s, side, h).value.1].reference.None?, reported, i, o);
      PairedReplicates(s.heap, i, o);
    case FlushPort(_) => assert false;
    case Client(_) => assert false;
  }

  /** A send adds a pair only by replicating the two buffers that meet. */
  lemma PairsGrow<H>(s: P.State<H>, side: P.Side, h: H, replicated: bool, reported: bool, i: H, o: H)
    requires P.Send(s, side, h, replicated, reported).pairs == s.pairs + [(i, o)]
    ensures !s.error && P.Matched(s, side, h) == Some((i, o)) && replicated
  {
    assert (s.pairs + [(i, o)])[|s.pairs|] == (i, o);
    assert |P.Send(s, side, h, replicated, reported).pairs| == |s.pairs| + 1;
  }

  lemma ReferenceStays<H(!new)>(s: System<H>, act: Act<H>, t: System<H>, i: H, o: H)
    requires Inv(s) && Step(s, act, t) && RefersTo(s.heap, o, i) && o !in t.heap.pool
    ensures RefersTo(t.heap, o, i)
  {
    match act
    case SendBuffer(side, h, _) =>
      var m := Meeting(s, side, h);
      if m.Some? { PairedStays(s.heap, m.value.0, m.value.1, o); }
    case FlushPort(_) =>
    case Client(op) => ReplicaStays(s.heap, op, o);
  }

  lemma PairedStays<H>(g: Heap<H>, i: H, o: H, x: H)
    requires Closed(g) && BufferRefs.Legal(g, ReplicateOp(o, i)) && x in g.node && g.node[x].reference.Some?
    ensures StaysReplica(g, Paired(g, i, o), x)
  {
    ReplicaStays(g, ReplicateOp(o, i), x);
  }

  lemma StillRefers<H(!new)>(ss: seq<System<H>>, acts: seq<Act<H>>, j: nat, k: nat, i: H, o: H)
    requires IsRun(ss, acts) && j <= k < |ss| && RefersTo(ss[j].heap, o, i)
    requires forall m :: j < m <= k ==> o !in ss[m].heap.pool
    ensures RefersTo(ss[k].heap, o, i)
  {
    RunInv(ss, acts, j);
    forall s, act, t: System<H> | Inv(s) && RefersTo(s.heap, o, i) && Step(s, act, t) && o !in t.heap.pool
      ensures Inv(t) && RefersTo(t.heap, o, i)
    {
      StepKeeps(s, act, t);
      ReferenceStays(s, act, t, i, o);
    }
    Along(Steps(), (s: System<H>) => Inv(s) && RefersTo(s.heap, o, i), (s: System<H>) => o !in s.heap.pool, ss, acts, j, k);
  }

  lemma PairedAt<H(!new)>(ss: seq<System<H>>, acts: seq<Act<H>>, j: nat, i: H, o: H)
    requires IsRun(ss, acts) && j < |acts| && ss[j + 1].ports.pairs == ss[j].ports.pairs + [(i, o)]
    ensures Replicates(ss[j].heap, ss[j + 1].heap, i, o)
  {
    assert Steps()(ss[j], acts[j], ss[j + 1]);
    PairingReplicates(ss[j], acts[j], ss[j + 1], i, o);
  }

  /** Another header's reference keeps i alive. */
  ghost predicate Pinned<H>(g: Heap<H>, i: H) {
    i in g.node && i in g.clients && g.node[i].refcount >= g.clients[i] + 1 && i !in g.pool && i !in g.postponed
  }

  /** Once an input has been paired with an output, which then shows all its fields, the input is
      not recycled before the output: as long as the output has not been back in its pool, the
      input has a reference beyond those of its clients, is not in its pool, and no release of
      it waits to be finished - whatever the clients do with their own references. */
  lemma InputPinned<H(!new)>(ss: seq<System<H>>, acts: seq<Act<H>>, j: nat, k: nat, i: H, o: H)
    requires IsRun(ss, acts) && j < k < |ss| && ss[j + 1].ports.pairs == ss[j].ports.pairs + [(i, o)]
    requires forall m :: j < m <= k ==> o !in ss[m].heap.pool
    ensures Replicates(ss[j].heap, ss[j + 1].heap, i, o)
    ensures RefersTo(ss[k].heap, o, i) && Pinned(ss[k].heap, i)
  {
    PairedAt(ss, acts, j, i, o);
    StillRefers(ss, acts, j + 1, k, i, o);
    RunInv(ss, acts, k);
    SourceHeld(ss[k].heap, o, i);
  }

  lemma SourceHeld<H>(g: Heap<H>, o: H, i: H)
    requires Consistent(g) && RefersTo(g, o, i)
    ensures Pinned(g, i)
  {
    assert o in Referrers(g, i, {});
    assert Counted(g, i, {}, None);
  }
}
