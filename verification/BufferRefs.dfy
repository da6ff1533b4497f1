/** Reference counting of buffer headers: who holds a header, when it goes back to its pool,
    and what releasing one does to the headers it was replicated from. */
module BufferRefs {
  import opened Wrappers
  import opened CInt
  import opened Sequences

  /** The public fields of a header. Payloads are only ever compared by address. */
  datatype Fields = Fields(
    cmd: nat, data: nat, allocSize: nat, length: nat, offset: nat, flags: nat, pts: int, dts: int, typ: nat)

  datatype Node<+H> = Node(refcount: int, reference: Option<H>, fields: Fields)

  /** All headers of a pool, together with what their clients do with them. */
  datatype Heap<H> = Heap(
    node: map<H, Node<H>>,
    clients: map<H, nat>,     // references held by clients
    pool: seq<H>,             // headers waiting in the pool's queue
    postponed: set<H>,        // headers whose pre-release callback has delayed their release
    rank: map<H, nat>)        // a replicate ranks above its source: the graph has no cycle

  function ResetFields(f: Fields): Fields {
    f.(length := 0, offset := 0, flags := 0, pts := TIME_UNKNOWN, dts := TIME_UNKNOWN)
  }

  ghost predicate Closed<H>(g: Heap<H>) {
    && g.clients.Keys == g.node.Keys && g.rank.Keys == g.node.Keys
    && (forall x :: x in g.pool ==> x in g.node)
    && g.postponed <= g.node.Keys
    && forall x :: x in g.node && g.node[x].reference.Some? ==>
         g.node[x].reference.value in g.node && g.rank[g.node[x].reference.value] < g.rank[x]
  }

  /** Release and the tail of a release run down the reference chain; headers above are untouched. */
  ghost predicate OnlyBelow<H>(g: Heap<H>, r: Heap<H>, bound: nat) {
    && Closed(g) && Closed(r)
    && r.node.Keys == g.node.Keys && r.clients == g.clients && r.rank == g.rank
    && forall x :: x in g.node && g.rank[x] > bound ==> r.node[x] == g.node[x]
  }

  /** Changing a header without touching its reference. */
  ghost predicate SameReferences<H>(g: Heap<H>, r: Heap<H>) {
    && r.node.Keys == g.node.Keys && r.clients == g.clients && r.rank == g.rank && r.pool == g.pool && r.postponed == g.postponed
    && forall x :: x in g.node ==> r.node[x].reference == g.node[x].reference
  }

  ghost function Incremented<H>(g: Heap<H>, h: H): (r: Heap<H>)
    requires h in g.node
    ensures SameReferences(g, r) && (Closed(g) ==> Closed(r))
  {
    g.(node := g.node[h := g.node[h].(refcount := g.node[h].refcount + 1)])
  }

  ghost function Decremented<H>(g: Heap<H>, h: H): (r: Heap<H>)
    requires h in g.node
    ensures SameReferences(g, r) && (Closed(g) ==> Closed(r))
  {
    g.(node := g.node[h := g.node[h].(refcount := g.node[h].refcount - 1)])
  }

  /** The header without its contents. */
  ghost function Cleared<H>(g: Heap<H>, h: H): (r: Heap<H>)
    requires h in g.node
    ensures SameReferences(g, r) && (Closed(g) ==> Closed(r))
  {
    g.(node := g.node[h := g.node[h].(fields := ResetFields(g.node[h].fields))])
  }

  /** The header back in its pool, whose release callback takes a reference and queues it. */
  ghost function Recycled<H>(g: Heap<H>, h: H): (r: Heap<H>)
    requires h in g.node
    ensures r.node.Keys == g.node.Keys && (Closed(g) ==> Closed(r))
  {
    g.(node := g.node[h := g.node[h].(reference := None, refcount := 1)], pool := g.pool + [h])
  }

  ghost function Release<H>(g: Heap<H>, h: H, delay: set<H>): (r: Heap<H>)
    requires Closed(g) && h in g.node
    ensures OnlyBelow(g, r, g.rank[h])
    decreases g.rank[h], 2
  {
    var g1 := Decremented(g, h);
    if g1.node[h].refcount != 0 then g1
    else if h in delay then g1.(postponed := g1.postponed + {h})
    else Continue(g1, h, delay)
  }

  /** The tail of a release: reset, release the source, then hand the header to its pool,
      whose release callback takes a reference for the pool and queues it. */
  ghost function Continue<H>(g: Heap<H>, h: H, delay: set<H>): (r: Heap<H>)
    requires Closed(g) && h in g.node
    ensures OnlyBelow(g, r, g.rank[h])
    decreases g.rank[h], 1
  {
    Recycled(ReleaseSource(Cleared(g, h), h, delay), h)
  }

  ghost function ReleaseSource<H>(g: Heap<H>, h: H, delay: set<H>): (r: Heap<H>)
    requires Closed(g) && h in g.node
    ensures OnlyBelow(g, r, g.rank[h]) && r.node[h] == g.node[h]
    decreases g.rank[h], 0
  {
    if g.node[h].reference.Some? then Release(g, g.node[h].reference.value, delay) else g
  }

  // ---------------------------------------------------------------- what a release does

  /** The headers a release recycles: as long as this was the last reference. */
  ghost function Dying<H>(g: Heap<H>, h: H, delay: set<H>): seq<H>
    requires Closed(g) && h in g.node
    decreases g.rank[h]
  {
    if g.node[h].refcount != 1 || h in delay then []
    else [h] + if g.node[h].reference.Some? then Dying(g, g.node[h].reference.value, delay) else []
  }

  /** Where the cascade ends: a header that keeps a reference, or whose release is delayed. */
  ghost function Survivor<H>(g: Heap<H>, h: H, delay: set<H>): Option<H>
    requires Closed(g) && h in g.node
    decreases g.rank[h]
  {
    if g.node[h].refcount != 1 || h in delay then Some(h)
    else if g.node[h].reference.Some? then Survivor(g, g.node[h].reference.value, delay)
    else None
  }

  function Reverse<H>(s: seq<H>): seq<H> {
    if s == [] then [] else Reverse(s[1..]) + [s[0]]
  }

  /** The chain below h depends only on headers of h's rank and lower. */
  lemma {:induction false} DyingFrame<H>(g: Heap<H>, g': Heap<H>, h: H, delay: set<H>)
    requires Closed(g) && Closed(g') && h in g.node && g'.node.Keys == g.node.Keys && g'.rank == g.rank
    requires forall x :: x in g.node && g.rank[x] <= g.rank[h] ==> g'.node[x] == g.node[x]
    ensures Dying(g', h, delay) == Dying(g, h, delay) && Survivor(g', h, delay) == Survivor(g, h, delay)
    decreases g.rank[h]
  {
    if g.node[h].reference.Some? {
      DyingFrame(g, g', g.node[h].reference.value, delay);
    }
  }

  /** The recycled headers form a chain from h along the references, each at its last
      reference and in strictly falling rank, so no header occurs twice. */
  lemma {:induction false} DyingIsChain<H>(g: Heap<H>, h: H, delay: set<H>)
    requires Closed(g) && h in g.node
    ensures var d := Dying(g, h, delay);
            && (forall i :: 0 <= i < |d| ==> d[i] in g.node && g.node[d[i]].refcount == 1 && d[i] !in delay && g.rank[d[i]] <= g.rank[h])
            && (d != [] ==> d[0] == h)
            && (forall i :: 0 < i < |d| ==> g.node[d[i - 1]].reference == Some(d[i]))
            && (forall i, j :: 0 <= i < j < |d| ==> g.rank[d[j]] < g.rank[d[i]])
            && (Survivor(g, h, delay).Some? ==>
                  && Survivor(g, h, delay).value in g.node
                  && g.rank[Survivor(g, h, delay).value] <= g.rank[h]
                  && Survivor(g, h, delay).value !in d
                  && (d != [] ==> g.node[d[|d| - 1]].reference == Survivor(g, h, delay)))
    decreases g.rank[h]
  {
    if g.node[h].refcount == 1 && h !in delay && g.node[h].reference.Some? {
      DyingIsChain(g, g.node[h].reference.value, delay);
    }
  }

  /** No contents and no time; the payload stays. */
  predicate Clean(f: Fields) {
    f.length == 0 && f.offset == 0 && f.flags == 0 && f.pts == TIME_UNKNOWN && f.dts == TIME_UNKNOWN
  }

  /** Back in the pool, with the pool's reference only, emptied, and with its payload. */
  predicate BackInPool<H>(before: Node<H>, after: Node<H>) {
    && after.refcount == 1 && after.reference.None? && Clean(after.fields)
    && after.fields.cmd == before.fields.cmd && after.fields.data == before.fields.data
    && after.fields.allocSize == before.fields.allocSize && after.fields.typ == before.fields.typ
  }

  ghost predicate Effect<H>(g: Heap<H>, r: Heap<H>, dying: seq<H>, survivor: Option<H>) {
    && r.node.Keys == g.node.Keys
    && r.pool == g.pool + Reverse(dying)
    && (forall x :: x in g.node ==>
          if x in dying then BackInPool(g.node[x], r.node[x])
          else r.node[x] == if survivor == Some(x) then g.node[x].(refcount := g.node[x].refcount - 1) else g.node[x])
    && r.postponed == g.postponed + if survivor.Some? && survivor.value in g.node && g.node[survivor.value].refcount == 1 then {survivor.value} else {}
  }

  /** What is left of h while the release goes on below it. */
  ghost function Spent<H>(g: Heap<H>, h: H): (r: Heap<H>)
    requires h in g.node
    ensures SameReferences(g, r) && (Closed(g) ==> Closed(r))
    ensures forall x :: x in g.node && x != h ==> r.node[x] == g.node[x]
  {
    Cleared(Decremented(g, h), h)
  }

  /** One link of the chain: h itself is recycled after everything below it. */
  lemma EffectLink<H>(g: Heap<H>, h: H, g2: Heap<H>, below: seq<H>, survivor: Option<H>)
    requires h in g.node && g.node[h].refcount == 1
    requires Effect(Spent(g, h), g2, below, survivor)
    requires h !in below && survivor != Some(h)
    ensures Effect(g, Recycled(g2, h), [h] + below, survivor)
  {
    assert ([h] + below)[1..] == below;
    forall x | x in g.node && x != h
      ensures x in [h] + below <==> x in below
    {
    }
  }

  lemma ReleaseUnfolds<H>(g: Heap<H>, h: H, delay: set<H>)
    requires Closed(g) && h in g.node && g.node[h].refcount == 1 && h !in delay
    ensures Release(g, h, delay) == Recycled(ReleaseSource(Spent(g, h), h, delay), h)
  {
  }

  /** A release recycles exactly the headers of that chain, each once, a source before the
      header replicated from it, and takes one reference from the header where it ends. */
  lemma {:induction false} ReleaseEffect<H>(g: Heap<H>, h: H, delay: set<H>)
    requires Closed(g) && h in g.node
    ensures Effect(g, Release(g, h, delay), Dying(g, h, delay), Survivor(g, h, delay))
    decreases g.rank[h]
  {
    if g.node[h].refcount != 1 || h in delay {
      ReleaseStops(g, h, delay);
    } else {
      if g.node[h].reference.Some? {
        ReleaseEffect(Spent(g, h), g.node[h].reference.value, delay);
        ReleaseGoesOn(g, h, delay, g.node[h].reference.value);
      } else {
        ReleaseLast(g, h, delay);
      }
    }
  }

  lemma ReleaseGoesOn<H>(g: Heap<H>, h: H, delay: set<H>, s: H)
    requires Closed(g) && h in g.node && g.node[h].refcount == 1 && h !in delay && g.node[h].reference == Some(s)
    requires Effect(Spent(g, h), Release(Spent(g, h), s, delay), Dying(Spent(g, h), s, delay), Survivor(Spent(g, h), s, delay))
    ensures Effect(g, Release(g, h, delay), Dying(g, h, delay), Survivor(g, h, delay))
  {
    ReleaseUnfolds(g, h, delay);
    DyingFrame(g, Spent(g, h), s, delay);
    DyingIsChain(g, s, delay);
    EffectLink(g, h, Release(Spent(g, h), s, delay), Dying(g, s, delay), Survivor(g, s, delay));
  }

  lemma ReleaseLast<H>(g: Heap<H>, h: H, delay: set<H>)
    requires Closed(g) && h in g.node && g.node[h].refcount == 1 && h !in delay && g.node[h].reference.None?
    ensures Effect(g, Release(g, h, delay), Dying(g, h, delay), Survivor(g, h, delay))
  {
    ReleaseUnfolds(g, h, delay);
    assert g.pool + Reverse<H>([]) == g.pool;
    EffectLink(g, h, Spent(g, h), [], None);
  }

  lemma ReleaseStops<H>(g: Heap<H>, h: H, delay: set<H>)
    requires Closed(g) && h in g.node && (g.node[h].refcount != 1 || h in delay)
    ensures Effect(g, Release(g, h, delay), [], Some(h))
  {
    assert g.pool + Reverse<H>([]) == g.pool;
  }

  // ---------------------------------------------------------------- the counting invariant

  ghost function Referrers<H>(g: Heap<H>, x: H, spent: set<H>): set<H> {
    set y | y in g.node && y !in spent && g.node[y].reference == Some(x)
  }

  ghost predicate Counted<H>(g: Heap<H>, x: H, spent: set<H>, token: Option<H>)
    requires Closed(g) && x in g.node
  {
    g.node[x].refcount == g.clients[x] + |Referrers(g, x, spent)| + (if x in g.pool then 1 else 0) + (if token == Some(x) then 1 else 0)
  }

  /** The invariant, in the middle of a release as well: `spent` are the headers being
      recycled, whose reference to their source is already being given up, and `token` is the
      header whose reference is in hand. */
  ghost predicate Inv<H>(g: Heap<H>, spent: set<H>, token: Option<H>) {
    && Closed(g)
    && (forall x :: x in g.node && x !in spent ==> Counted(g, x, spent, token))
    && (forall x :: x in g.node && x !in spent ==> (g.node[x].refcount == 0 <==> x in g.postponed))
    && (forall x :: x in g.node && x in spent ==>
          g.node[x].refcount == 0 && g.clients[x] == 0 && Referrers(g, x, spent) == {} && token != Some(x)
          && x !in g.pool && x !in g.postponed)
    && Distinct(g.pool)
    && (forall x :: x in g.pool ==> g.clients[x] == 0 && g.node[x].refcount == 1 && g.node[x].reference == None)
  }

  /** Between operations. */
  ghost predicate Consistent<H>(g: Heap<H>) {
    Inv(g, {}, None)
  }

  lemma DecrementKeeps<H>(g: Heap<H>, h: H, spent: set<H>, g1: Heap<H>)
    requires Inv(g, spent, Some(h)) && h in g.node
    requires g1 == Decremented(g, h)
    ensures h !in spent && g.node[h].refcount >= 1 && Closed(g1)
    ensures forall x :: x in g.node ==> Referrers(g1, x, spent) == Referrers(g, x, spent)
    ensures forall x :: x in g.node && x !in spent ==> Counted(g1, x, spent, None)
    ensures g.node[h].refcount == 1 ==> g.clients[h] == 0 && Referrers(g, h, spent) == {} && h !in g.pool && h !in g.postponed
  {
    assert Counted(g, h, spent, Some(h));
    forall x | x in g.node ensures Referrers(g1, x, spent) == Referrers(g, x, spent) {}
    forall x | x in g.node && x !in spent ensures Counted(g1, x, spent, None) {
      assert Counted(g, x, spent, Some(h));
      assert Referrers(g1, x, spent) == Referrers(g, x, spent);
    }
  }

  /** The two halves of a release keep the count, whatever releases it is nested in. */
  lemma {:induction false} ReleaseKeeps<H>(g: Heap<H>, h: H, delay: set<H>, spent: set<H>)
    requires Inv(g, spent, Some(h)) && h in g.node
    requires forall x :: x in spent && x in g.node ==> g.rank[x] > g.rank[h]
    ensures Inv(Release(g, h, delay), spent, None)
    decreases g.rank[h], 1
  {
    var g1 := Decremented(g, h);
    DecrementKeeps(g, h, spent, g1);
    if g1.node[h].refcount != 0 {
      SharedKeeps(g, h, spent, g1);
    } else {
      LastReference(g, h, spent, g1);
      if h in delay {
        PostponeKeeps(g1, h, spent);
      } else {
        SpendKeeps(g1, h, spent);
        ContinueKeeps(g1, h, delay, spent);
      }
    }
  }

  lemma SharedKeeps<H>(g: Heap<H>, h: H, spent: set<H>, g1: Heap<H>)
    requires Inv(g, spent, Some(h)) && h in g.node && g.node[h].refcount != 1
    requires g1 == Decremented(g, h)
    ensures Inv(g1, spent, None)
  {
    DecrementKeeps(g, h, spent, g1);
    assert Counted(g, h, spent, Some(h));
  }

  lemma LastReference<H>(g: Heap<H>, h: H, spent: set<H>, g1: Heap<H>)
    requires Inv(g, spent, Some(h)) && h in g.node && g.node[h].refcount == 1
    requires g1 == Decremented(g, h)
    ensures AtZero(g1, h, spent)
  {
    DecrementKeeps(g, h, spent, g1);
  }

  /** A header at count 0 whose release goes on. */
  ghost predicate AboutToGo<H>(g: Heap<H>, h: H, spent: set<H>) {
    && Closed(g) && h in g.node && h !in spent
    && Inv(g, spent + {h}, g.node[h].reference)
    && forall x :: x in spent && x in g.node ==> g.rank[x] > g.rank[h]
  }

  ghost predicate AtZero<H>(g: Heap<H>, h: H, spent: set<H>) {
    && Closed(g) && h in g.node && h !in spent
    && (forall x :: x in g.node && x !in spent ==> Counted(g, x, spent, None))
    && (forall x :: x in g.node && x !in spent && x != h ==> (g.node[x].refcount == 0 <==> x in g.postponed))
    && (forall x :: x in g.node && x in spent ==>
          g.node[x].refcount == 0 && g.clients[x] == 0 && Referrers(g, x, spent) == {}
          && x !in g.pool && x !in g.postponed)
    && Distinct(g.pool)
    && (forall x :: x in g.pool ==> g.clients[x] == 0 && g.node[x].refcount == 1 && g.node[x].reference == None)
    && g.node[h].refcount == 0 && g.clients[h] == 0 && Referrers(g, h, spent) == {} && h !in g.pool && h !in g.postponed
  }

  lemma PostponeKeeps<H>(g: Heap<H>, h: H, spent: set<H>)
    requires AtZero(g, h, spent)
    ensures Inv(g.(postponed := g.postponed + {h}), spent, None)
  {
    var r := g.(postponed := g.postponed + {h});
    forall x | x in g.node ensures Referrers(r, x, spent) == Referrers(g, x, spent) {}
    forall x | x in g.node && x !in spent ensures Counted(r, x, spent, None) {
      assert Counted(g, x, spent, None);
      assert Referrers(r, x, spent) == Referrers(g, x, spent);
    }
  }

  /** Spending h turns its reference into one in hand. */
  lemma SpendKeeps<H>(g: Heap<H>, h: H, spent: set<H>)
    requires AtZero(g, h, spent)
    ensures Inv(g, spent + {h}, g.node[h].reference)
  {
    var more, token := spent + {h}, g.node[h].reference;
    forall x | x in g.node
      ensures Referrers(g, x, more) == Referrers(g, x, spent) - {h}
      ensures token == Some(x) <==> h in Referrers(g, x, spent)
    {
    }
    forall x | x in g.node && x !in more ensures Counted(g, x, more, token) {
      assert Counted(g, x, spent, None);
      assert Referrers(g, x, more) == Referrers(g, x, spent) - {h};
    }
    assert token != Some(h);
  }

  lemma {:induction false} ContinueKeeps<H>(g: Heap<H>, h: H, delay: set<H>, spent: set<H>)
    requires AboutToGo(g, h, spent)
    ensures Inv(Continue(g, h, delay), spent, None)
    decreases g.rank[h], 0
  {
    var g1 := Cleared(g, h);
    SameCounts(g, g1, spent + {h}, g.node[h].reference);
    if g.node[h].reference.Some? {
      ReleaseKeeps(g1, g.node[h].reference.value, delay, spent + {h});
    }
    RecycleKeeps(ReleaseSource(g1, h, delay), h, spent);
  }

  lemma SameCounts<H>(g: Heap<H>, g': Heap<H>, spent: set<H>, token: Option<H>)
    requires Inv(g, spent, token)
    requires g'.node.Keys == g.node.Keys && g' == g.(node := g'.node)
    requires forall x :: x in g.node ==> g'.node[x].refcount == g.node[x].refcount && g'.node[x].reference == g.node[x].reference
    ensures Inv(g', spent, token)
  {
    forall x | x in g.node ensures Referrers(g', x, spent) == Referrers(g, x, spent) {}
    forall x | x in g.node && x !in spent ensures Counted(g', x, spent, token) {
      assert Counted(g, x, spent, token);
      assert Referrers(g', x, spent) == Referrers(g, x, spent);
    }
  }

  lemma RecycleKeeps<H>(g: Heap<H>, h: H, spent: set<H>)
    requires Inv(g, spent + {h}, None) && h in g.node && h !in spent
    ensures Inv(Recycled(g, h), spent, None)
  {
    var more := spent + {h};
    var r := Recycled(g, h);
    forall x | x in g.node ensures Referrers(r, x, spent) == Referrers(g, x, more) {}
    forall x | x in g.node && x !in spent ensures Counted(r, x, spent, None) {
      assert Referrers(r, x, spent) == Referrers(g, x, more);
      if x == h {
        assert Referrers(g, h, more) == {};
      } else {
        assert Counted(g, x, more, None);
        assert x in r.pool <==> x in g.pool;
      }
    }
    assert forall x :: x in r.pool <==> x in g.pool || x == h;
  }

  // ---------------------------------------------------------------- client operations

  /** Whether following references from x arrives at d. */
  ghost predicate Reaches<H>(g: Heap<H>, x: H, d: H)
    requires Closed(g) && x in g.node
    decreases g.rank[x]
  {
    x == d || (g.node[x].reference.Some? && Reaches(g, g.node[x].reference.value, d))
  }

  /** Lift everything that reaches dest above src, so that dest may refer to src. */
  ghost function Rerank<H>(g: Heap<H>, dest: H, src: H): map<H, nat>
    requires Closed(g) && dest in g.node && src in g.node
  {
    map x | x in g.node :: if Reaches(g, x, dest) then g.rank[x] + g.rank[src] + 1 else g.rank[x]
  }

  datatype Status = Success | EInval

  /** Make dest refer to src and copy src's fields, unless dest already refers to a header. */
  ghost function Replicate<H>(g: Heap<H>, dest: H, src: H): (r: (Heap<H>, Status))
    requires Closed(g) && dest in g.node && src in g.node && !Reaches(g, src, dest)
    ensures Closed(r.0)
  {
    if g.node[dest].reference.Some? then (g, EInval)
    else
      ReplicateCloses(g, dest, src);
      (Linked(g, dest, src), Success)
  }

  ghost function Linked<H>(g: Heap<H>, dest: H, src: H): Heap<H>
    requires Closed(g) && dest in g.node && src in g.node
  {
    var n := g.node[src := g.node[src].(refcount := g.node[src].refcount + 1)];
    g.(node := n[dest := Node(n[dest].refcount, Some(src), n[src].fields)], rank := Rerank(g, dest, src))
  }

  lemma ReplicateCloses<H>(g: Heap<H>, dest: H, src: H)
    requires Closed(g) && dest in g.node && src in g.node && !Reaches(g, src, dest) && g.node[dest].reference.None?
    ensures Closed(Linked(g, dest, src))
  {
    var r := Linked(g, dest, src);
    forall x | x in r.node && r.node[x].reference.Some?
      ensures r.node[x].reference.value in r.node && r.rank[r.node[x].reference.value] < r.rank[x]
    {
      if x != dest {
        assert Reaches(g, x, dest) <==> Reaches(g, g.node[x].reference.value, dest);
      }
    }
  }

  /** The replication as such: there is an acyclic ranking of the references after it exactly if
      it did not close a cycle. */
  lemma ReplicateClosesExactlyWhen<H>(g: Heap<H>, dest: H, src: H)
    requires Closed(g) && dest in g.node && src in g.node && g.node[dest].reference.None?
    ensures (exists rank :: RanksAll(Linked(g, dest, src), rank)) <==> !Reaches(g, src, dest)
  {
    var r := Linked(g, dest, src);
    if Reaches(g, src, dest) {
      forall rank ensures !RanksAll(r, rank) {
        if RanksAll(r, rank) {
          PathFalls(g, dest, src, rank, src);
        }
      }
    } else {
      ReplicateCloses(g, dest, src);
      assert RanksAll(r, r.rank);
    }
  }

  ghost predicate RanksAll<H>(g: Heap<H>, rank: map<H, nat>) {
    && rank.Keys == g.node.Keys
    && forall x :: x in g.node && g.node[x].reference.Some? ==>
         g.node[x].reference.value in g.node && rank[g.node[x].reference.value] < rank[x]
  }

  lemma {:induction false} PathFalls<H>(g: Heap<H>, dest: H, src: H, rank: map<H, nat>, x: H)
    requires Closed(g) && dest in g.node && src in g.node && x in g.node && Reaches(g, x, dest)
    requires RanksAll(Linked(g, dest, src), rank)
    ensures rank[dest] <= rank[x]
    decreases g.rank[x]
  {
    if x != dest {
      var y := g.node[x].reference.value;
      assert Linked(g, dest, src).node[x].reference == Some(y);
      PathFalls(g, dest, src, rank, y);
    }
  }

  datatype Op<H> =
    | Take                                // get the oldest header from the pool's queue
    | AcquireOp(h: H)
    | ReleaseOp(h: H, delay: set<H>)      // delay: whose pre-release callback keeps the header
    | ContinueOp(h: H, delay: set<H>)     // finish a release that was delayed
    | ReplicateOp(dest: H, src: H)

  /** Clients only use headers they hold, and never close a cycle of references. */
  ghost predicate Legal<H>(g: Heap<H>, op: Op<H>)
    requires Closed(g)
  {
    match op
    case Take => g.pool != []
    case AcquireOp(h) => h in g.node && g.clients[h] > 0
    case ReleaseOp(h, _) => h in g.node && g.clients[h] > 0
    case ContinueOp(h, _) => h in g.postponed
    case ReplicateOp(d, s) => d in g.node && s in g.node && g.clients[d] > 0 && g.clients[s] > 0 && !Reaches(g, s, d)
  }

  /** One client reference less; the count still includes it. */
  ghost function GivenUp<H>(g: Heap<H>, h: H): (r: Heap<H>)
    requires h in g.node && h in g.clients && g.clients[h] > 0
    ensures r.node == g.node && r.pool == g.pool && (Closed(g) ==> Closed(r))
  {
    g.(clients := g.clients[h := g.clients[h] - 1])
  }

  ghost function Apply<H>(g: Heap<H>, op: Op<H>): (r: Heap<H>)
    requires Closed(g) && Legal(g, op)
    ensures Closed(r)
  {
    match op
    case Take => g.(pool := g.pool[1..], clients := g.clients[g.pool[0] := 1])
    case AcquireOp(h) => Incremented(g, h).(clients := g.clients[h := g.clients[h] + 1])
    case ReleaseOp(h, delay) => Release(GivenUp(g, h), h, delay)
    case ContinueOp(h, delay) => Continue(g.(postponed := g.postponed - {h}), h, delay)
    case ReplicateOp(d, s) => Replicate(g, d, s).0
  }

  lemma CountMoves<H>(g: Heap<H>, r: Heap<H>)
    requires Closed(g) && Closed(r) && r.node.Keys == g.node.Keys
    requires forall x :: x in g.node ==> r.node[x].reference == g.node[x].reference
    ensures forall x :: x in g.node ==> Referrers(r, x, {}) == Referrers(g, x, {})
  {
    forall x | x in g.node ensures Referrers(r, x, {}) == Referrers(g, x, {}) {}
  }

  lemma TakeKeeps<H>(g: Heap<H>)
    requires Consistent(g) && g.pool != []
    ensures Consistent(Apply(g, Take))
  {
    var r, h := Apply(g, Take), g.pool[0];
    CountMoves(g, r);
    assert h in g.pool;
    assert forall x :: x in g.pool <==> x == h || x in r.pool;
    assert h !in r.pool;
    forall x | x in g.node ensures Counted(r, x, {}, None) {
      assert Counted(g, x, {}, None);
    }
  }

  lemma AcquireKeeps<H>(g: Heap<H>, h: H)
    requires Consistent(g) && Legal(g, AcquireOp(h))
    ensures Consistent(Apply(g, AcquireOp(h)))
  {
    var r := Apply(g, AcquireOp(h));
    CountMoves(g, r);
    forall x | x in g.node ensures Counted(r, x, {}, None) && Counted(g, x, {}, None) {
      assert Counted(g, x, {}, None);
    }
  }

  lemma ReleaseOpKeeps<H>(g: Heap<H>, h: H, delay: set<H>)
    requires Consistent(g) && Legal(g, ReleaseOp(h, delay))
    ensures Consistent(Apply(g, ReleaseOp(h, delay)))
  {
    var g' := GivenUp(g, h);
    GiveUpKeeps(g, h, g');
    ReleaseKeeps(g', h, delay, {});
  }

  /** A client gives up a reference: it is in hand until the release has taken it. */
  lemma GiveUpKeeps<H>(g: Heap<H>, h: H, g': Heap<H>)
    requires Consistent(g) && h in g.node && g.clients[h] > 0 && g' == GivenUp(g, h)
    ensures Inv(g', {}, Some(h))
  {
    CountMoves(g, g');
    forall x | x in g.node ensures Counted(g', x, {}, Some(h)) {
      assert Counted(g, x, {}, None);
    }
  }

  lemma ContinueOpKeeps<H>(g: Heap<H>, h: H, delay: set<H>)
    requires Consistent(g) && Legal(g, ContinueOp(h, delay))
    ensures Consistent(Apply(g, ContinueOp(h, delay)))
  {
    var g' := g.(postponed := g.postponed - {h});
    CountMoves(g, g');
    forall x | x in g.node ensures Counted(g', x, {}, None) && Counted(g, x, {}, None) {
      assert Counted(g, x, {}, None);
    }
    assert Referrers(g, h, {}) == {};
    SpendKeeps(g', h, {});
    ContinueKeeps(g', h, delay, {});
  }

  lemma LinkedReferrers<H>(g: Heap<H>, r: Heap<H>, d: H, s: H, x: H)
    requires d in g.node && g.node[d].reference.None? && r.node.Keys == g.node.Keys
    requires forall y :: y in g.node ==> r.node[y].reference == if y == d then Some(s) else g.node[y].reference
    ensures |Referrers(r, x, {})| == |Referrers(g, x, {})| + if x == s then 1 else 0
  {
    assert d !in Referrers(g, x, {});
    if x == s {
      assert Referrers(r, x, {}) == Referrers(g, x, {}) + {d};
    } else {
      assert Referrers(r, x, {}) == Referrers(g, x, {});
    }
  }

  lemma LinkedCounts<H>(g: Heap<H>, d: H, s: H, x: H, r: Heap<H>)
    requires Closed(g) && x in g.node && Counted(g, x, {}, None) && d in g.node && s in g.node && d != s
    requires g.node[d].reference.None? && Closed(r) && r.clients == g.clients && r.pool == g.pool
    requires r.node == Linked(g, d, s).node
    ensures Counted(r, x, {}, None)
  {
    LinkedReferrers(g, r, d, s, x);
  }

  lemma ReplicateKeeps<H>(g: Heap<H>, d: H, s: H)
    requires Consistent(g) && Legal(g, ReplicateOp(d, s))
    ensures Consistent(Apply(g, ReplicateOp(d, s)))
  {
    if g.node[d].reference.None? {
      ReplicateCloses(g, d, s);
      assert d != s;
      LinkKeeps(g, d, s, Linked(g, d, s));
    }
  }

  lemma LinkKeeps<H>(g: Heap<H>, d: H, s: H, r: Heap<H>)
    requires Consistent(g) && d in g.node && s in g.node && d != s && g.clients[d] > 0 && g.clients[s] > 0
    requires g.node[d].reference.None? && r == Linked(g, d, s) && Closed(r)
    ensures Consistent(r)
  {
    assert Counted(g, d, {}, None) && Counted(g, s, {}, None);
    LinkKeepsRest(g, d, s, r);
    forall x | x in g.node ensures Counted(r, x, {}, None) {
      assert Counted(g, x, {}, None);
      LinkedCounts(g, d, s, x, r);
    }
  }

  ghost predicate ZeroIsPostponed<H>(g: Heap<H>) {
    forall x :: x in g.node ==> (g.node[x].refcount == 0 <==> x in g.postponed)
  }

  ghost predicate PoolIsFree<H>(g: Heap<H>)
    requires Closed(g)
  {
    forall x :: x in g.pool ==> g.clients[x] == 0 && g.node[x].refcount == 1 && g.node[x].reference == None
  }

  /** Neither header is in the pool or at count 0. */
  lemma LinkKeepsRest<H>(g: Heap<H>, d: H, s: H, r: Heap<H>)
    requires Closed(g) && Closed(r) && d in g.node && s in g.node && d != s && g.clients[d] > 0 && g.clients[s] > 0
    requires g.node[d].refcount > 0 && g.node[s].refcount > 0 && r.clients == g.clients && r.pool == g.pool && r.postponed == g.postponed
    requires r.node == Linked(g, d, s).node && ZeroIsPostponed(g) && PoolIsFree(g)
    ensures ZeroIsPostponed(r) && PoolIsFree(r)
  {
    assert d !in g.pool && s !in g.pool;
    forall x | x in g.node && x != d && x != s ensures r.node[x] == g.node[x] {}
  }

  lemma ApplyKeeps<H>(g: Heap<H>, op: Op<H>)
    requires Consistent(g) && Legal(g, op)
    ensures Consistent(Apply(g, op))
  {
    match op
    case Take => TakeKeeps(g);
    case AcquireOp(h) => AcquireKeeps(g, h);
    case ReleaseOp(h, delay) => ReleaseOpKeeps(g, h, delay);
    case ContinueOp(h, delay) => ContinueOpKeeps(g, h, delay);
    case ReplicateOp(d, s) => ReplicateKeeps(g, d, s);
  }

  // ---------------------------------------------------------------- what each operation does

  /** Taking hands out the oldest header, with the pool's reference. */
  lemma TakeEffect<H>(g: Heap<H>)
    requires Consistent(g) && g.pool != []
    ensures var r := Apply(g, Take);
            && r.pool == g.pool[1..] && r.node == g.node && r.postponed == g.postponed
            && r.clients == g.clients[g.pool[0] := 1]
  {
  }

  lemma AcquireEffect<H>(g: Heap<H>, h: H)
    requires Closed(g) && Legal(g, AcquireOp(h))
    ensures var r := Apply(g, AcquireOp(h));
            && r.pool == g.pool && r.postponed == g.postponed && r.clients == g.clients[h := g.clients[h] + 1]
            && OneMore(g, r, h)
  {
  }

  ghost predicate OneMore<H>(g: Heap<H>, r: Heap<H>, h: H)
    requires h in g.node
  {
    && r.node.Keys == g.node.Keys && r.node[h] == g.node[h].(refcount := g.node[h].refcount + 1)
    && forall x :: x in g.node && x != h ==> r.node[x] == g.node[x]
  }

  /** A client's release has the effect of a release, delayed as its callbacks ask, and takes one of
      the client's references. */
  lemma ReleaseOpEffect<H>(g: Heap<H>, h: H, delay: set<H>)
    requires Consistent(g) && Legal(g, ReleaseOp(h, delay))
    ensures Effect(g, Apply(g, ReleaseOp(h, delay)), Dying(g, h, delay), Survivor(g, h, delay))
    ensures Apply(g, ReleaseOp(h, delay)).clients == g.clients[h := g.clients[h] - 1]
  {
    var g' := GivenUp(g, h);
    ReleaseEffect(g', h, delay);
    DyingFrame(g, g', h, delay);
  }

  /** The rest of a delayed release of h: it is recycled after what its source sets off. */
  ghost predicate Finished<H>(g: Heap<H>, r: Heap<H>, h: H, dying: seq<H>, survivor: Option<H>)
    requires h in g.node
  {
    && r.node.Keys == g.node.Keys && r.pool == g.pool + Reverse(dying) + [h] && BackInPool(g.node[h], r.node[h]) && h !in r.postponed
    && forall x :: x in g.node && x != h ==>
         if x in dying then BackInPool(g.node[x], r.node[x])
         else r.node[x] == if survivor == Some(x) then g.node[x].(refcount := g.node[x].refcount - 1) else g.node[x]
  }

  lemma ContinueOpEffect<H>(g: Heap<H>, h: H, delay: set<H>)
    requires Closed(g) && Legal(g, ContinueOp(h, delay))
    ensures Apply(g, ContinueOp(h, delay)).clients == g.clients
    ensures g.node[h].reference.None? ==> Finished(g, Apply(g, ContinueOp(h, delay)), h, [], None)
    ensures g.node[h].reference.Some? ==>
              var s := g.node[h].reference.value;
              Finished(g, Apply(g, ContinueOp(h, delay)), h, Dying(g, s, delay), Survivor(g, s, delay))
  {
    var g' := g.(postponed := g.postponed - {h});
    if g.node[h].reference.Some? {
      HasSourceEffect(g, h, delay, g', g.node[h].reference.value);
    } else {
      NoSourceEffect(g, h, delay, g');
    }
  }

  lemma HasSourceEffect<H>(g: Heap<H>, h: H, delay: set<H>, g': Heap<H>, s: H)
    requires Closed(g) && h in g.node && g.node[h].reference == Some(s) && g' == g.(postponed := g.postponed - {h}) && Closed(g')
    ensures Finished(g, Continue(g', h, delay), h, Dying(g, s, delay), Survivor(g, s, delay))
  {
    ClearedEffect(g, h, delay, g', s);
    NotAmongDying(g, h, delay, s);
    SourceEffect(g, h, delay, g', s, Release(Cleared(g', h), s, delay));
  }

  lemma ClearedEffect<H>(g: Heap<H>, h: H, delay: set<H>, g': Heap<H>, s: H)
    requires Closed(g) && h in g.node && g.node[h].reference == Some(s) && g' == g.(postponed := g.postponed - {h}) && Closed(g')
    ensures Effect(Cleared(g', h), Release(Cleared(g', h), s, delay), Dying(g, s, delay), Survivor(g, s, delay))
  {
    ReleaseEffect(Cleared(g', h), s, delay);
    DyingFrame(g, Cleared(g', h), s, delay);
  }

  lemma NotAmongDying<H>(g: Heap<H>, h: H, delay: set<H>, s: H)
    requires Closed(g) && h in g.node && g.node[h].reference == Some(s)
    ensures h !in Dying(g, s, delay) && Survivor(g, s, delay) != Some(h)
  {
    DyingIsChain(g, s, delay);
  }

  lemma NoSourceEffect<H>(g: Heap<H>, h: H, delay: set<H>, g': Heap<H>)
    requires Closed(g) && h in g.node && g.node[h].reference.None? && g' == g.(postponed := g.postponed - {h}) && Closed(g')
    ensures Finished(g, Continue(g', h, delay), h, [], None)
  {
    assert g.pool + Reverse<H>([]) == g.pool;
  }

  lemma SourceEffect<H>(g: Heap<H>, h: H, delay: set<H>, g': Heap<H>, s: H, g2: Heap<H>)
    requires Closed(g) && h in g.node && g.node[h].reference == Some(s) && g' == g.(postponed := g.postponed - {h}) && Closed(g')
    requires g2 == Release(Cleared(g', h), s, delay)
    requires Effect(Cleared(g', h), g2, Dying(g, s, delay), Survivor(g, s, delay))
    requires h !in Dying(g, s, delay) && Survivor(g, s, delay) != Some(h)
    ensures Finished(g, Continue(g', h, delay), h, Dying(g, s, delay), Survivor(g, s, delay))
  {
    assert Continue(g', h, delay) == Recycled(g2, h);
    RecycledFinishes(g, h, g', g2, Dying(g, s, delay), Survivor(g, s, delay));
  }

  lemma RecycledFinishes<H>(g: Heap<H>, h: H, g': Heap<H>, g2: Heap<H>, dying: seq<H>, survivor: Option<H>)
    requires h in g.node && g' == g.(postponed := g.postponed - {h}) && Effect(Cleared(g', h), g2, dying, survivor)
    requires h !in dying && survivor != Some(h)
    ensures Finished(g, Recycled(g2, h), h, dying, survivor)
  {
  }

  /** Replicating makes dest a second view of src, with one more reference to it, unless dest already
      is one; then nothing happens. */
  lemma ReplicateOpEffect<H>(g: Heap<H>, d: H, s: H)
    requires Closed(g) && Legal(g, ReplicateOp(d, s))
    ensures var r := Apply(g, ReplicateOp(d, s));
            && r.pool == g.pool && r.postponed == g.postponed && r.clients == g.clients && d != s
            && (g.node[d].reference.Some? ==> r == g)
            && (g.node[d].reference.None? ==> LinksTo(g, r, d, s))
  {
  }

  ghost predicate LinksTo<H>(g: Heap<H>, r: Heap<H>, d: H, s: H)
    requires d in g.node && s in g.node
  {
    && r.node.Keys == g.node.Keys
    && r.node[d] == Node(g.node[d].refcount, Some(s), g.node[s].fields)
    && r.node[s] == g.node[s].(refcount := g.node[s].refcount + 1)
    && forall x :: x in g.node && x != d && x != s ==> r.node[x] == g.node[x]
  }

  // ---------------------------------------------------------------- how long a replicate refers to its source

  /** Headers keep their references or are in the pool, and the pool does not shrink. */
  ghost predicate FreesOnly<H>(g: Heap<H>, r: Heap<H>) {
    && r.node.Keys == g.node.Keys
    && (forall x :: x in g.pool ==> x in r.pool)
    && forall x :: x in g.node ==> x in r.pool || r.node[x].reference == g.node[x].reference
  }

  lemma {:induction false} ReleaseFrees<H>(g: Heap<H>, h: H, delay: set<H>)
    requires Closed(g) && h in g.node
    ensures FreesOnly(g, Release(g, h, delay))
    decreases g.rank[h], 1
  {
    if g.node[h].refcount == 1 && h !in delay {
      ContinueFrees(Decremented(g, h), h, delay);
    }
  }

  lemma {:induction false} ContinueFrees<H>(g: Heap<H>, h: H, delay: set<H>)
    requires Closed(g) && h in g.node
    ensures FreesOnly(g, Continue(g, h, delay))
    decreases g.rank[h], 0
  {
    var g1 := Cleared(g, h);
    if g.node[h].reference.Some? {
      ReleaseFrees(g1, g.node[h].reference.value, delay);
    }
    assert FreesOnly(g1, ReleaseSource(g1, h, delay));
  }

  /** Whatever enters the pool is clean. */
  ghost predicate CleanEnter<H>(g: Heap<H>, r: Heap<H>) {
    && r.node.Keys == g.node.Keys
    && forall x :: x in r.pool && x in r.node ==> Clean(r.node[x].fields) || (x in g.pool && r.node[x].fields == g.node[x].fields)
  }

  lemma {:induction false} ReleaseCleans<H>(g: Heap<H>, h: H, delay: set<H>)
    requires Closed(g) && h in g.node
    ensures CleanEnter(g, Release(g, h, delay))
    decreases g.rank[h], 1
  {
    if g.node[h].refcount == 1 && h !in delay {
      ContinueCleans(Decremented(g, h), h, delay);
    }
  }

  lemma {:induction false} ContinueCleans<H>(g: Heap<H>, h: H, delay: set<H>)
    requires Closed(g) && h in g.node
    ensures CleanEnter(g, Continue(g, h, delay))
    decreases g.rank[h], 0
  {
    var g1 := Cleared(g, h);
    assert Clean(g1.node[h].fields);
    if g.node[h].reference.Some? {
      ReleaseCleans(g1, g.node[h].reference.value, delay);
    }
    assert CleanEnter(g1, ReleaseSource(g1, h, delay));
  }

  lemma ApplyCleans<H>(g: Heap<H>, op: Op<H>)
    requires Consistent(g) && Legal(g, op)
    ensures CleanEnter(g, Apply(g, op))
  {
    match op
    case Take =>
    case AcquireOp(h) =>
    case ReleaseOp(h, delay) => ReleaseCleans(GivenUp(g, h), h, delay);
    case ContinueOp(h, delay) => ContinueCleans(g.(postponed := g.postponed - {h}), h, delay);
    case ReplicateOp(d, s) => LinkCleans(g, d, s);
  }

  lemma LinkCleans<H>(g: Heap<H>, d: H, s: H)
    requires Consistent(g) && Legal(g, ReplicateOp(d, s))
    ensures CleanEnter(g, Apply(g, ReplicateOp(d, s)))
  {
    assert d !in g.pool;
  }

  /** A replicate refers to its source until it has been recycled. */
  lemma ReplicaStays<H>(g: Heap<H>, op: Op<H>, d: H)
    requires Closed(g) && Legal(g, op) && d in g.node && g.node[d].reference.Some?
    ensures StaysReplica(g, Apply(g, op), d)
  {
    match op
    case Take =>
    case AcquireOp(h) => FreesStays(g, Incremented(g, h), d);
    case ReleaseOp(h, delay) => ReleaseStays(g, h, delay, GivenUp(g, h), d);
    case ContinueOp(h, delay) => ContinueStays(g, h, delay, g.(postponed := g.postponed - {h}), d);
    case ReplicateOp(d', s) => LinkStays(g, d', s, d);
  }

  lemma FreesStays<H>(g: Heap<H>, r: Heap<H>, d: H)
    requires d in g.node && FreesOnly(g, r)
    ensures StaysReplica(g, r, d)
  {
  }

  lemma ReleaseStays<H>(g: Heap<H>, h: H, delay: set<H>, g': Heap<H>, d: H)
    requires Closed(g') && h in g'.node && d in g.node && g'.node == g.node && g'.pool == g.pool
    ensures StaysReplica(g, Release(g', h, delay), d)
  {
    ReleaseFrees(g', h, delay);
  }

  lemma ContinueStays<H>(g: Heap<H>, h: H, delay: set<H>, g': Heap<H>, d: H)
    requires Closed(g') && h in g'.node && d in g.node && g'.node == g.node && g'.pool == g.pool
    ensures StaysReplica(g, Continue(g', h, delay), d)
  {
    ContinueFrees(g', h, delay);
  }

  ghost predicate StaysReplica<H>(g: Heap<H>, r: Heap<H>, d: H)
    requires d in g.node
  {
    r.node.Keys == g.node.Keys && (d in r.pool || r.node[d].reference == g.node[d].reference)
  }

  lemma LinkStays<H>(g: Heap<H>, d': H, s: H, d: H)
    requires Closed(g) && Legal(g, ReplicateOp(d', s)) && d in g.node && g.node[d].reference.Some?
    ensures StaysReplica(g, Apply(g, ReplicateOp(d', s)), d)
  {
  }

  // ---------------------------------------------------------------- whole runs

  /** A fresh pool: every header queued once, with the pool's own reference. */
  ghost predicate FreshPool<H>(g: Heap<H>) {
    && Closed(g) && Distinct(g.pool) && g.postponed == {}
    && forall x :: x in g.node ==> x in g.pool && g.node[x].refcount == 1 && g.node[x].reference == None && g.clients[x] == 0
  }

  ghost predicate IsRun<H>(gs: seq<Heap<H>>, ops: seq<Op<H>>) {
    && |gs| == |ops| + 1 && FreshPool(gs[0])
    && (forall i :: 0 <= i < |gs| ==> Closed(gs[i]))
    && (forall i :: 0 <= i < |ops| ==> Legal(gs[i], ops[i]) && gs[i + 1] == Apply(gs[i], ops[i]))
  }

  lemma FreshIsConsistent<H>(g: Heap<H>)
    requires FreshPool(g)
    ensures Consistent(g)
  {
    forall x | x in g.node ensures Counted(g, x, {}, None) {
      assert Referrers(g, x, {}) == {};
    }
  }

  lemma {:induction false} RunKeeps<H>(gs: seq<Heap<H>>, ops: seq<Op<H>>, i: nat)
    requires IsRun(gs, ops) && i < |gs|
    ensures Consistent(gs[i])
  {
    if i == 0 {
      FreshIsConsistent(gs[0]);
    } else {
      RunKeeps(gs, ops, i - 1);
      ApplyKeeps(gs[i - 1], ops[i - 1]);
    }
  }

  /** In every reachable state a header's count is the number of client references plus the
      number of headers replicated from it, plus one while it waits in the pool; and a header
      waits in the pool only when nobody holds it and no header replicated from it is still
      unreleased. */
  lemma CountsAreReferences<H>(gs: seq<Heap<H>>, ops: seq<Op<H>>, i: nat, x: H)
    requires IsRun(gs, ops) && i < |gs| && x in gs[i].node
    ensures var g := gs[i];
            && g.node[x].refcount == g.clients[x] + |Referrers(g, x, {})| + (if x in g.pool then 1 else 0)
            && (x in g.pool ==> g.clients[x] == 0 && forall y :: y in g.node ==> g.node[y].reference != Some(x))
            && (x in g.postponed ==> g.clients[x] == 0 && x !in g.pool && forall y :: y in g.node ==> g.node[y].reference != Some(x))
  {
    RunKeeps(gs, ops, i);
    var g := gs[i];
    assert Counted(g, x, {}, None);
    if x in g.pool || x in g.postponed {
      assert Referrers(g, x, {}) == {};
      forall y | y in g.node ensures g.node[y].reference != Some(x) {
        assert y !in Referrers(g, x, {});
      }
    }
  }

  /** A header taken from the pool is empty: in every run each header in the pool is clean, or still
      as the pool was created with. */
  lemma {:induction false} PooledAreClean<H>(gs: seq<Heap<H>>, ops: seq<Op<H>>, i: nat, x: H)
    requires IsRun(gs, ops) && i < |gs| && x in gs[i].pool
    ensures x in gs[i].node && x in gs[0].node
    ensures Clean(gs[i].node[x].fields) || gs[i].node[x].fields == gs[0].node[x].fields
    decreases i
  {
    SameHeaders(gs, ops, i);
    if i > 0 {
      RunCleans(gs, ops, i - 1);
      if x in gs[i - 1].pool { PooledAreClean(gs, ops, i - 1, x); }
    }
  }

  lemma RunCleans<H>(gs: seq<Heap<H>>, ops: seq<Op<H>>, i: nat)
    requires IsRun(gs, ops) && i < |ops|
    ensures CleanEnter(gs[i], gs[i + 1])
  {
    RunKeeps(gs, ops, i);
    ApplyCleans(gs[i], ops[i]);
  }

  lemma {:induction false} SameHeaders<H>(gs: seq<Heap<H>>, ops: seq<Op<H>>, i: nat)
    requires IsRun(gs, ops) && i < |gs|
    ensures gs[i].node.Keys == gs[0].node.Keys
  {
    if i > 0 {
      SameHeaders(gs, ops, i - 1);
      RunCleans(gs, ops, i - 1);
    }
  }

  /** Nothing leaks: once no client holds a header and no release is delayed, every header is
      back in the pool. */
  lemma NothingLeaks<H>(gs: seq<Heap<H>>, ops: seq<Op<H>>, i: nat)
    requires IsRun(gs, ops) && i < |gs|
    requires gs[i].postponed == {} && forall x :: x in gs[i].node ==> gs[i].clients[x] == 0
    ensures forall x :: x in gs[i].node ==> x in gs[i].pool
  {
    RunKeeps(gs, ops, i);
    forall x | x in gs[i].node ensures x in gs[i].pool {
      InPool(gs[i], x);
    }
  }

  ghost function Above<H>(g: Heap<H>, x: H): set<H>
    requires Closed(g) && x in g.node
  {
    set y | y in g.node && g.rank[y] > g.rank[x]
  }

  lemma {:induction false} InPool<H>(g: Heap<H>, x: H)
    requires Consistent(g) && x in g.node
    requires g.postponed == {} && forall y :: y in g.node ==> g.clients[y] == 0
    ensures x in g.pool
    decreases Above(g, x)
  {
    assert Counted(g, x, {}, None);
    if x !in g.pool {
      assert Referrers(g, x, {}) != {};
      var y :| y in Referrers(g, x, {});
      assert y in Above(g, x) && y !in Above(g, y);
      InPool(g, y);
    }
  }
}
