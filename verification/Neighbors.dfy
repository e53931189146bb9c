/** The list of neighbors of a daemon and the connections that follow it
    (add_neighbors and remove_neighbor of communicatord.cpp). */
module Neighbors {
  import opened RemoteCommunicatorsState
  import opened RemoteCommunicatorsClass

  /** One parsed entry of a list of neighbors. */
  datatype Entry = Entry(a: Addr, range: bool, loopback: bool)

  datatype Known = Known(neighbors: set<Addr>, links: Links)

  /** What the dispatcher answers: the addresses it is connected to and those it takes no connection for. */
  datatype World = World(now: int, up: set<Addr>, refused: set<Addr>)

  function AddEntry(k: Known, e: Entry, w: World): Known {
    if e.range || e.loopback || e.a in k.neighbors then k
    else Known(k.neighbors + {e.a}, Add(k.links, e.a, w.now, e.a in w.up, e.a !in w.refused))
  }

  function AddAll(k: Known, entries: seq<Entry>, w: World): Known {
    if entries == [] then k
    else AddEntry(AddAll(k, entries[..|entries| - 1], w), entries[|entries| - 1], w)
  }

  function Remove(k: Known, a: Addr): Known {
    Known(k.neighbors - {a}, Forget(k.links, a))
  }

  class NeighborList {
    var neighbors: set<Addr>
    const remotes: RemoteCommunicators

    constructor (me: Addr)
      ensures fresh(remotes) && State() == Known({}, Fresh(me))
    {
      neighbors := {};
      remotes := new RemoteCommunicators(me);
    }

    ghost function State(): Known
      reads this, remotes
    {
      Known(neighbors, remotes.State())
    }

    method AddNeighbors(entries: seq<Entry>, w: World)
      modifies this, remotes
      ensures State() == AddAll(old(State()), entries, w)
    {
      var i := 0;
      while i < |entries|
        invariant 0 <= i <= |entries|
        invariant State() == AddAll(old(State()), entries[..i], w)
      {
        assert entries[..i + 1][..i] == entries[..i];
        var e := entries[i];
        if !e.range && !e.loopback {
          if e.a !in neighbors {
            neighbors := neighbors + {e.a};
            remotes.AddRemoteCommunicator(e.a, w.now, e.a in w.up, e.a !in w.refused);
          }
        }
        i := i + 1;
      }
      assert entries[..i] == entries;
    }

    method RemoveNeighbor(a: Addr)
      modifies this, remotes
      ensures State() == Remove(old(State()), a)
    {
      if a in neighbors {
        neighbors := neighbors - {a};
      }
      assert neighbors == old(neighbors) - {a};
      remotes.ForgetRemoteConnection(a);
    }
  }
}

/** Whole runs: how the list of neighbors and the known addresses go together. */
module NeighborRuns {
  import opened RemoteCommunicatorsState
  import opened RemoteCommunicatorsRuns
  import opened Neighbors

  datatype Step = ListStep(entries: seq<Entry>, w: World) | DropStep(a: Addr) | LinkStep(op: Op)

  function After(me: Addr, steps: seq<Step>): Known {
    if steps == [] then Known({}, Fresh(me))
    else Next(After(me, steps[..|steps| - 1]), steps[|steps| - 1])
  }

  function Next(k: Known, step: Step): Known {
    match step
    case ListStep(entries, w) => AddAll(k, entries, w)
    case DropStep(a) => Remove(k, a)
    case LinkStep(op) => k.(links := Apply(k.links, op))
  }

  ghost predicate Covered(k: Known) {
    k.neighbors <= k.links.all + {k.links.me}
  }

  ghost predicate Matching(k: Known) {
    k.links.all == k.neighbors - {k.links.me}
  }

  lemma AllGrows(l: Links, op: Op)
    ensures Apply(l, op).me == l.me
    ensures Apply(l, op).all == l.all + if op.AddOp? && op.a != l.me then {op.a} else {}
  {}

  lemma {:induction false} ListAdds(k: Known, entries: seq<Entry>, w: World)
    ensures AddAll(k, entries, w).links.me == k.links.me
    ensures Covered(k) ==> Covered(AddAll(k, entries, w))
    ensures Matching(k) ==> Matching(AddAll(k, entries, w))
  {
    if entries != [] {
      var e := entries[|entries| - 1];
      ListAdds(k, entries[..|entries| - 1], w);
      AllGrows(AddAll(k, entries[..|entries| - 1], w).links, AddOp(e.a, w.now, e.a in w.up, e.a !in w.refused));
    }
  }

  /** In every run each neighbor is a known address, or the daemon's own. */
  lemma {:induction false} NeighborsAreKnown(me: Addr, steps: seq<Step>)
    ensures Covered(After(me, steps)) && After(me, steps).links.me == me
  {
    if steps != [] {
      var k := After(me, steps[..|steps| - 1]);
      NeighborsAreKnown(me, steps[..|steps| - 1]);
      match steps[|steps| - 1] {
        case ListStep(entries, w) => ListAdds(k, entries, w);
        case DropStep(a) =>
        case LinkStep(op) => AllGrows(k.links, op);
      }
    }
  }

  /** A step that drops no neighbor and opens no connection to a stranger. */
  predicate Orderly(k: Known, step: Step) {
    match step
    case ListStep(_, _) => true
    case DropStep(_) => false
    case LinkStep(op) => op.AddOp? ==> op.a == k.links.me || op.a in k.neighbors
  }

  ghost predicate AllOrderly(me: Addr, steps: seq<Step>)
    decreases |steps|
  {
    steps == []
    || (AllOrderly(me, steps[..|steps| - 1]) && Orderly(After(me, steps[..|steps| - 1]), steps[|steps| - 1]))
  }

  /** Without FORGET the known addresses are exactly the neighbors other than the daemon itself. */
  lemma {:induction false} KnownAreNeighbors(me: Addr, steps: seq<Step>)
    requires AllOrderly(me, steps)
    ensures Matching(After(me, steps)) && After(me, steps).links.me == me
  {
    if steps != [] {
      var k := After(me, steps[..|steps| - 1]);
      KnownAreNeighbors(me, steps[..|steps| - 1]);
      match steps[|steps| - 1] {
        case ListStep(entries, w) => ListAdds(k, entries, w);
        case LinkStep(op) => AllGrows(k.links, op);
      }
    }
  }

  /** A neighbor that was dropped and is learned again counts as a neighbor.  It
      gets no connection of either kind exactly when its address was known before
      or the dispatcher refuses the new connection. */
  lemma RelearnedHasNoConnection(k: Known, a: Addr, w: World)
    requires a != k.links.me
    ensures var again := AddAll(Remove(k, a), [Entry(a, false, false)], w);
            && a in again.neighbors
            && ((a !in again.links.smaller && a !in again.links.gossip) <==> a in k.links.all || a in w.refused)
  {
    var dropped := Remove(k, a);
    assert [Entry(a, false, false)][..0] == [];
    assert AddAll(dropped, [Entry(a, false, false)], w) == AddEntry(dropped, Entry(a, false, false), w);
  }

  // ---- a history of the list is a run of the connections ------------------

  function ListOps(k: Known, entries: seq<Entry>, w: World): seq<Op> {
    if entries == [] then []
    else
      var e := entries[|entries| - 1];
      ListOps(k, entries[..|entries| - 1], w)
      + if e.range || e.loopback || e.a in AddAll(k, entries[..|entries| - 1], w).neighbors then []
        else [AddOp(e.a, w.now, e.a in w.up, e.a !in w.refused)]
  }

  function StepOps(k: Known, step: Step): seq<Op> {
    match step
    case ListStep(entries, w) => ListOps(k, entries, w)
    case DropStep(a) => [ForgetOp(a)]
    case LinkStep(op) => [op]
  }

  /** What a history asked of the connections. */
  function OpsOf(me: Addr, steps: seq<Step>): seq<Op> {
    if steps == [] then []
    else OpsOf(me, steps[..|steps| - 1]) + StepOps(After(me, steps[..|steps| - 1]), steps[|steps| - 1])
  }

  lemma RunOneMore(me: Addr, ops: seq<Op>, op: Op)
    ensures Run(me, ops + [op]) == Apply(Run(me, ops), op)
  {
    assert (ops + [op])[..|ops + [op]| - 1] == ops;
  }

  lemma {:induction false} ListRun(me: Addr, ops: seq<Op>, k: Known, entries: seq<Entry>, w: World)
    requires k.links == Run(me, ops)
    ensures AddAll(k, entries, w).links == Run(me, ops + ListOps(k, entries, w))
  {
    if entries == [] {
      assert ops + ListOps(k, entries, w) == ops;
    } else {
      var front, e := entries[..|entries| - 1], entries[|entries| - 1];
      ListRun(me, ops, k, front, w);
      if e.range || e.loopback || e.a in AddAll(k, front, w).neighbors {
        assert ListOps(k, entries, w) == ListOps(k, front, w);
      } else {
        var op := AddOp(e.a, w.now, e.a in w.up, e.a !in w.refused);
        RunOneMore(me, ops + ListOps(k, front, w), op);
        assert ops + ListOps(k, entries, w) == ops + ListOps(k, front, w) + [op];
      }
    }
  }

  lemma {:induction false} LinksAreRun(me: Addr, steps: seq<Step>)
    ensures After(me, steps).links == Run(me, OpsOf(me, steps))
  {
    if steps != [] {
      var front := steps[..|steps| - 1];
      LinksAreRun(me, front);
      StepRun(me, OpsOf(me, front), After(me, front), steps[|steps| - 1]);
    }
  }

  lemma StepRun(me: Addr, ops: seq<Op>, k: Known, step: Step)
    requires k.links == Run(me, ops)
    ensures Next(k, step).links == Run(me, ops + StepOps(k, step))
  {
    match step
    case ListStep(entries, w) => ListRun(me, ops, k, entries, w);
    case DropStep(a) => RunOneMore(me, ops, ForgetOp(a));
    case LinkStep(op) => RunOneMore(me, ops, op);
  }

  // ---- the daemon's own address -------------------------------------------

  /** A daemon first adds its own address to the list. */
  predicate StartsWithItself(me: Addr, steps: seq<Step>) {
    steps != [] && steps[0].ListStep? && steps[0].entries == [Entry(me, false, false)]
  }

  lemma {:induction false} ListKeeps(k: Known, entries: seq<Entry>, w: World)
    ensures k.neighbors <= AddAll(k, entries, w).neighbors
  {
    if entries != [] { ListKeeps(k, entries[..|entries| - 1], w); }
  }

  lemma {:induction false} OwnAddressKept(me: Addr, steps: seq<Step>)
    requires AllOrderly(me, steps) && StartsWithItself(me, steps)
    ensures me in After(me, steps).neighbors
  {
    var front := steps[..|steps| - 1];
    if front == [] {
      assert [Entry(me, false, false)][..0] == [];
      assert AddAll(Known({}, Fresh(me)), [], steps[0].w) == Known({}, Fresh(me));
    } else {
      OwnAddressKept(me, front);
      if steps[|steps| - 1].ListStep? {
        ListKeeps(After(me, front), steps[|steps| - 1].entries, steps[|steps| - 1].w);
      }
    }
  }

  /** A daemon that started with its own address and dropped nobody: its neighbors
      are the addresses it knows and itself. */
  lemma NeighborsExactly(me: Addr, steps: seq<Step>)
    requires AllOrderly(me, steps) && StartsWithItself(me, steps)
    ensures After(me, steps).neighbors == Run(me, OpsOf(me, steps)).all + {me}
  {
    KnownAreNeighbors(me, steps);
    LinksAreRun(me, steps);
    OwnAddressKept(me, steps);
  }

  /** Whether an address is a neighbor, from the history alone: it was listed by
      itself, not as a range and not as a loopback address, and not dropped since. */
  ghost predicate Listed(steps: seq<Step>, a: Addr) {
    if steps == [] then false
    else
      var front := steps[..|steps| - 1];
      match steps[|steps| - 1]
      case ListStep(entries, _) => Listed(front, a) || exists e :: e in entries && e.a == a && !e.range && !e.loopback
      case DropStep(b) => b != a && Listed(front, a)
      case LinkStep(_) => Listed(front, a)
  }

  lemma {:induction false} ListAddsExactly(k: Known, entries: seq<Entry>, w: World, a: Addr)
    ensures a in AddAll(k, entries, w).neighbors
       <==> a in k.neighbors || exists e :: e in entries && e.a == a && !e.range && !e.loopback
  {
    if entries != [] {
      var front, last := entries[..|entries| - 1], entries[|entries| - 1];
      ListAddsExactly(k, front, w, a);
      assert entries == front + [last];
      if last.a == a && !last.range && !last.loopback { assert last in entries; }
    }
  }

  lemma {:induction false} ListedExactly(me: Addr, steps: seq<Step>, a: Addr)
    ensures a in After(me, steps).neighbors <==> Listed(steps, a)
  {
    if steps != [] {
      var front := steps[..|steps| - 1];
      ListedExactly(me, front, a);
      match steps[|steps| - 1] {
        case ListStep(entries, w) => ListAddsExactly(After(me, front), entries, w, a);
        case DropStep(b) =>
        case LinkStep(op) =>
      }
    }
  }
}
