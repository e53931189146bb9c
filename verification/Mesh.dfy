/** A cluster whose daemons all know each other: who dials whom, what each
    daemon counts, and why two halves cannot both have the quorum. */
module Mesh {
  import opened Basics
  import opened RemoteCommunicatorsState
  import opened RemoteCommunicatorsRuns
  import opened ClusterStatusState
  import opened NeighborRuns

  /** Every daemon of s ran its own history, none failed or forgot, and each learned all the others. */
  ghost predicate AllLearned(s: set<Addr>, runs: map<Addr, seq<Op>>) {
    && runs.Keys == s
    && forall a :: a in s ==> (forall op :: op in runs[a] ==> Healthy(op)) && Run(a, runs[a]).all == s - {a}
  }

  predicate Dials(runs: map<Addr, seq<Op>>, a: Addr, b: Addr)
    requires a in runs
  {
    b in Run(a, runs[a]).smaller
  }

  /** Of each pair exactly one dials the other: the one with the larger address. */
  lemma OneDialler(s: set<Addr>, runs: map<Addr, seq<Op>>, a: Addr, b: Addr)
    requires AllLearned(s, runs) && a in s && b in s && a != b
    ensures Dials(runs, a, b) <==> b < a
    ensures Dials(runs, a, b) <==> !Dials(runs, b, a)
  {
    MembershipKept(a, runs[a]);
    MembershipKept(b, runs[b]);
  }

  ghost function DialPairs(s: set<Addr>, runs: map<Addr, seq<Op>>): set<(Addr, Addr)>
    requires s <= runs.Keys
  {
    set a, b | a in s && b in s && Dials(runs, a, b) :: (a, b)
  }

  ghost function Ordered(s: set<Addr>): set<(Addr, Addr)> {
    set a, b | a in s && b in s && b < a :: (a, b)
  }

  ghost function PairsFrom(x: Addr, s: set<Addr>): set<(Addr, Addr)> {
    set b | b in s :: (x, b)
  }

  lemma {:induction false} PairCount(x: Addr, s: set<Addr>)
    ensures |PairsFrom(x, s)| == |s|
  {
    if s != {} {
      var y :| y in s;
      PairCount(x, s - {y});
      assert PairsFrom(x, s) == PairsFrom(x, s - {y}) + {(x, y)};
      assert (x, y) !in PairsFrom(x, s - {y});
    }
  }

  lemma {:induction false} Largest(s: set<Addr>) returns (x: Addr)
    requires s != {}
    ensures x in s && forall b :: b in s ==> b <= x
  {
    var y :| y in s;
    if s - {y} == {} {
      assert s == {y};
      x := y;
    } else {
      var z := Largest(s - {y});
      x := if y > z then y else z;
      assert forall b :: b in s ==> b == y || b in s - {y};
    }
  }

  lemma OrderedTop(s: set<Addr>, x: Addr)
    requires x in s && forall b :: b in s ==> b <= x
    ensures Ordered(s) == Ordered(s - {x}) + PairsFrom(x, s - {x})
    ensures Ordered(s - {x}) !! PairsFrom(x, s - {x})
  {}

  lemma {:induction false} OrderedCount(s: set<Addr>)
    ensures 2 * |Ordered(s)| == |s| * (|s| - 1)
  {
    if s == {} {
      assert Ordered(s) == {};
    } else {
      var x := Largest(s);
      var r := s - {x};
      OrderedCount(r);
      PairCount(x, r);
      OrderedTop(s, x);
      assert |s| == |r| + 1 && |Ordered(s)| == |Ordered(r)| + |r|;
      Triangle(|r|);
    }
  }

  lemma Triangle(n: nat)
    ensures n * (n - 1) + 2 * n == (n + 1) * n
  {}

  /** n daemons make n(n-1)/2 permanent connections in total. */
  lemma TotalDials(s: set<Addr>, runs: map<Addr, seq<Op>>)
    requires AllLearned(s, runs)
    ensures 2 * |DialPairs(s, runs)| == |s| * (|s| - 1)
  {
    forall a, b | a in s && b in s ensures Dials(runs, a, b) <==> b < a {
      if a != b { OneDialler(s, runs, a, b); } else { MembershipKept(a, runs[a]); }
    }
    assert DialPairs(s, runs) == Ordered(s);
    OrderedCount(s);
  }

  // ---- what one daemon counts ---------------------------------------------

  function Peer(l: Link): nat
    requires !l.OtherLink?
  {
    l.peer
  }

  /** The dispatcher's list of daemon a when every permanent connection is up and no gossip socket is open. */
  ghost predicate AllUp(s: set<Addr>, runs: map<Addr, seq<Op>>, a: Addr, links: seq<Link>)
    requires AllLearned(s, runs) && a in s
  {
    // what is live is a permanent connection, one per peer
    && (forall i :: 0 <= i < |links| && Live(links[i]) ==>
          Peer(links[i]) in s
          && if links[i].Dialled? then Dials(runs, a, Peer(links[i])) else Dials(runs, Peer(links[i]), a))
    && OnePerPeer(links)
    // and every permanent connection is live
    && (forall b :: b in s && Dials(runs, a, b) ==> HasLive(links, b))
    && (forall b :: b in s && Dials(runs, b, a) ==> HasLive(links, b))
  }

  ghost predicate HasLive(links: seq<Link>, b: Addr) {
    exists i :: 0 <= i < |links| && Live(links[i]) && Peer(links[i]) == b
  }

  ghost function LivePeers(links: seq<Link>): set<nat> {
    set i | 0 <= i < |links| && Live(links[i]) :: Peer(links[i])
  }

  ghost predicate OnePerPeer(links: seq<Link>) {
    forall i, j :: 0 <= i < j < |links| && Live(links[i]) && Live(links[j]) ==> Peer(links[i]) != Peer(links[j])
  }

  lemma {:induction false} DistinctLive(links: seq<Link>)
    requires OnePerPeer(links)
    ensures LiveCount(links) == |LivePeers(links)|
  {
    if links == [] {
      assert LivePeers(links) == {};
    } else {
      var front, l := links[..|links| - 1], links[|links| - 1];
      DistinctLive(front);
      LastPeer(links);
      assert Live(l) ==> Peer(l) !in LivePeers(front);
    }
  }

  lemma LastPeer(links: seq<Link>)
    requires links != []
    ensures var l := links[|links| - 1];
            LivePeers(links) == LivePeers(links[..|links| - 1]) + if Live(l) then {Peer(l)} else {}
  {
    var front, l := links[..|links| - 1], links[|links| - 1];
    forall p | p in LivePeers(links) ensures p in LivePeers(front) || (Live(l) && p == Peer(l)) {
      var i :| 0 <= i < |links| && Live(links[i]) && Peer(links[i]) == p;
      if i < |front| { assert front[i] == links[i]; }
    }
    forall p | p in LivePeers(front) ensures p in LivePeers(links) {
      var i :| 0 <= i < |front| && Live(front[i]) && Peer(front[i]) == p;
      assert links[i] == front[i];
    }
  }

  /** What the histories of the daemons' lists of neighbors asked of their connections. */
  function RunsOf(histories: map<Addr, seq<Step>>): map<Addr, seq<Op>> {
    map a | a in histories :: OpsOf(a, histories[a])
  }

  /** With all connections up every daemon has the whole cluster for neighbors,
      counts all the others, and finds the cluster up and complete. */
  lemma {:induction false} FullMesh(s: set<Addr>, histories: map<Addr, seq<Step>>, a: Addr, links: seq<Link>)
    requires AllLearned(s, RunsOf(histories)) && a in s
    requires AllOrderly(a, histories[a]) && StartsWithItself(a, histories[a])
    requires AllUp(s, RunsOf(histories), a, links)
    ensures var neighbors := After(a, histories[a]).neighbors;
            && neighbors == s
            && LiveCount(links) == |s| - 1
            && IsUp(LiveCount(links) + 1, Total(neighbors)) && IsComplete(LiveCount(links) + 1, Total(neighbors))
  {
    NeighborsExactly(a, histories[a]);
    assert Run(a, OpsOf(a, histories[a])).all == s - {a};
    assert After(a, histories[a]).neighbors == s;
    CountsAllOthers(s, RunsOf(histories), a, links);
  }

  lemma CountsAllOthers(s: set<Addr>, runs: map<Addr, seq<Op>>, a: Addr, links: seq<Link>)
    requires AllLearned(s, runs) && a in s && AllUp(s, runs, a, links)
    ensures LiveCount(links) == |s| - 1
  {
    DistinctLive(links);
    MembershipKept(a, runs[a]);
    forall b ensures b in LivePeers(links) <==> b in s - {a} {
      if b in s && b != a {
        OneDialler(s, runs, a, b);
        assert HasLive(links, b);
      }
    }
    assert LivePeers(links) == s - {a};
  }

  // ---- no split brain -----------------------------------------------------

  /** The live peers of d in a cluster of daemons n with the connections that are up. */
  ghost function PeersOf(n: set<Addr>, up: set<(Addr, Addr)>, d: Addr): set<Addr> {
    set p | p in n && p != d && ((d, p) in up || (p, d) in up)
  }

  /** A daemon that counts each of its live peers once. */
  ghost predicate CountsOnce(n: set<Addr>, up: set<(Addr, Addr)>, d: Addr, links: seq<Link>) {
    LiveCount(links) == |PeersOf(n, up, d)|
  }

  ghost predicate Apart(g: set<Addr>, h: set<Addr>, up: set<(Addr, Addr)>) {
    && g !! h
    && forall a, b :: a in g && b in h ==> (a, b) !in up && (b, a) !in up
  }

  /** Quorums meet: with one set of neighbors and every live peer counted once, two
      daemons without a connection that both find the cluster up share a live peer. */
  lemma UpPeersMeet(n: set<Addr>, up: set<(Addr, Addr)>, d: Addr, e: Addr, dLinks: seq<Link>, eLinks: seq<Link>)
    requires d in n && e in n && d != e && (d, e) !in up && (e, d) !in up
    requires CountsOnce(n, up, d, dLinks) && CountsOnce(n, up, e, eLinks)
    requires IsUp(LiveCount(dLinks) + 1, Total(n)) && IsUp(LiveCount(eLinks) + 1, Total(n))
    ensures PeersOf(n, up, d) * PeersOf(n, up, e) != {}
  {
    var p, q := PeersOf(n, up, d), PeersOf(n, up, e);
    SubsetSize(p + q, n - {d, e});
    assert |n - {d, e}| == |n| - 2 by {
      assert n == n - {d, e} + {d, e};
    }
    assert |p + q| + |p * q| == |p| + |q|;
  }

  ghost predicate Touches(up: set<(Addr, Addr)>, p: Addr, g: set<Addr>) {
    exists a :: a in g && ((a, p) in up || (p, a) in up)
  }

  /** No daemon outside both groups is connected to both. */
  ghost predicate NoBridge(n: set<Addr>, up: set<(Addr, Addr)>, g: set<Addr>, h: set<Addr>) {
    forall p :: p in n && p !in g && p !in h ==> !Touches(up, p, g) || !Touches(up, p, h)
  }

  /** No split brain: of two groups without a connection between them, and without
      a third daemon connected to both, at most one has members that find the
      cluster up; whatever other connections they have. */
  lemma NoSplitBrain(n: set<Addr>, up: set<(Addr, Addr)>, g: set<Addr>, h: set<Addr>,
                     d: Addr, e: Addr, dLinks: seq<Link>, eLinks: seq<Link>)
    requires g <= n && h <= n && Apart(g, h, up) && NoBridge(n, up, g, h) && d in g && e in h
    requires CountsOnce(n, up, d, dLinks) && CountsOnce(n, up, e, eLinks)
    ensures !(IsUp(LiveCount(dLinks) + 1, Total(n)) && IsUp(LiveCount(eLinks) + 1, Total(n)))
  {
    forall p | p in PeersOf(n, up, d) ensures p !in PeersOf(n, up, e) {
      assert Touches(up, p, g);
      assert p in PeersOf(n, up, e) ==> Touches(up, p, h);
    }
    if IsUp(LiveCount(dLinks) + 1, Total(n)) && IsUp(LiveCount(eLinks) + 1, Total(n)) {
      UpPeersMeet(n, up, d, e, dLinks, eLinks);
    }
  }

  // ---- split brain, from the sizes of the groups --------------------------

  /** The connections let a member of each group find the cluster up. */
  ghost predicate BothUp(n: set<Addr>, up: set<(Addr, Addr)>, g: set<Addr>, h: set<Addr>, d: Addr, e: Addr) {
    && d in g && e in h && Apart(g, h, up)
    && IsUp(|PeersOf(n, up, d)| + 1, Total(n)) && IsUp(|PeersOf(n, up, e)| + 1, Total(n))
  }

  /** A daemon without a connection to a group finds the cluster up only if that
      group has less than half of the daemons. */
  lemma UpOutsideMinority(n: set<Addr>, up: set<(Addr, Addr)>, h: set<Addr>, d: Addr)
    requires d in n && h <= n && d !in h && IsUp(|PeersOf(n, up, d)| + 1, Total(n))
    requires forall b :: b in h ==> (d, b) !in up && (b, d) !in up
    ensures 2 * |h| < |n|
  {
    SubsetSize(PeersOf(n, up, d), n - h - {d});
    assert n == (n - h - {d}) + h + {d} && |n| == |n - h - {d}| + |h| + 1;
  }

  /** All connections but those between g and h. */
  ghost function AllBut(n: set<Addr>, g: set<Addr>, h: set<Addr>): set<(Addr, Addr)> {
    set a, b | a in n && b in n && !(a in g && b in h) && !(a in h && b in g) :: (a, b)
  }

  lemma MinorityUp(n: set<Addr>, g: set<Addr>, h: set<Addr>, d: Addr)
    requires g <= n && h <= n && g !! h && d in g && 2 * |h| < |n|
    ensures IsUp(|PeersOf(n, AllBut(n, g, h), d)| + 1, Total(n))
    ensures PeersOf(n, AllBut(n, g, h), d) == PeersOf(n, AllBut(n, h, g), d)
  {
    var up := AllBut(n, g, h);
    assert PeersOf(n, up, d) == n - h - {d};
    assert n == (n - h - {d}) + h + {d} && |n| == |n - h - {d}| + |h| + 1;
    assert PeersOf(n, AllBut(n, h, g), d) == n - h - {d};
  }

  /** Split brain, exactly: two groups without a connection between them can both
      have members that find the cluster up if and only if each of them has less
      than half of the daemons. */
  lemma SplitBrainExactly(n: set<Addr>, g: set<Addr>, h: set<Addr>)
    requires g <= n && h <= n && g !! h && g != {} && h != {}
    ensures (exists up, d, e :: BothUp(n, up, g, h, d, e)) <==> 2 * |g| < |n| && 2 * |h| < |n|
  {
    if up, d, e :| BothUp(n, up, g, h, d, e) {
      UpOutsideMinority(n, up, h, d);
      UpOutsideMinority(n, up, g, e);
    }
    if 2 * |g| < |n| && 2 * |h| < |n| {
      var d :| d in g;
      var e :| e in h;
      MinorityUp(n, g, h, d);
      MinorityUp(n, h, g, e);
      assert BothUp(n, AllBut(n, g, h), g, h, d, e);
    }
  }

  /** A cluster cut in two is never up on both sides. */
  lemma CutInTwo(n: set<Addr>, up: set<(Addr, Addr)>, g: set<Addr>, h: set<Addr>,
                 d: Addr, e: Addr, dLinks: seq<Link>, eLinks: seq<Link>)
    requires n == g + h && Apart(g, h, up) && d in g && e in h
    requires CountsOnce(n, up, d, dLinks) && CountsOnce(n, up, e, eLinks)
    ensures !(IsUp(LiveCount(dLinks) + 1, Total(n)) && IsUp(LiveCount(eLinks) + 1, Total(n)))
  {
    assert |n| == |g| + |h|;
    if BothUp(n, up, g, h, d, e) {
      UpOutsideMinority(n, up, h, d);
      UpOutsideMinority(n, up, g, e);
    }
  }

  /** Every daemon of g is connected only inside g. */
  ghost predicate Closed(n: set<Addr>, g: set<Addr>, up: set<(Addr, Addr)>) {
    g <= n && Apart(g, n - g, up)
  }

  /** Groups that are cut off from everybody else are a special case. */
  lemma CutOffGroups(n: set<Addr>, up: set<(Addr, Addr)>, g: set<Addr>, h: set<Addr>)
    requires Closed(n, g, up) && Closed(n, h, up) && g !! h
    ensures Apart(g, h, up) && NoBridge(n, up, g, h)
  {
    forall a, b | a in g && b in h ensures (a, b) !in up && (b, a) !in up {
      assert b in n - g;
    }
    forall p | p in n && p !in g && p !in h ensures !Touches(up, p, g) {
      assert p in n - g;
    }
  }

  // ---- counting a peer twice ----------------------------------------------

  /** The live connections of the list are one to each of these peers. */
  ghost predicate NamesOnce(links: seq<Link>, peers: set<Addr>) {
    LivePeers(links) == peers && OnePerPeer(links)
  }

  /** All daemons of g are connected to each other, and to nobody else. */
  ghost predicate FullGroup(n: set<Addr>, g: set<Addr>, up: set<(Addr, Addr)>) {
    Closed(n, g, up) && forall a, b :: a in g && b in g && a != b ==> (a, b) in up || (b, a) in up
  }

  lemma {:induction false} LiveSum(a: seq<Link>, b: seq<Link>)
    ensures LiveCount(a + b) == LiveCount(a) + LiveCount(b)
  {
    if b == [] {
      assert a + b == a;
    } else {
      LiveSum(a, b[..|b| - 1]);
      assert (a + b)[..|a + b| - 1] == a + b[..|b| - 1];
    }
  }

  /** A daemon with two sockets to each of its peers, all of its group. */
  lemma CountsTwice(n: set<Addr>, up: set<(Addr, Addr)>, g: set<Addr>, d: Addr, one: seq<Link>, two: seq<Link>)
    requires FullGroup(n, g, up) && d in g
    requires NamesOnce(one, PeersOf(n, up, d)) && NamesOnce(two, PeersOf(n, up, d))
    ensures LiveCount(one + two) == 2 * (|g| - 1)
  {
    LiveSum(one, two);
    DistinctLive(one);
    DistinctLive(two);
    forall p ensures p in PeersOf(n, up, d) <==> p in g - {d} {
      if p in PeersOf(n, up, d) { assert p in n - g || p in g; }
    }
    assert PeersOf(n, up, d) == g - {d};
  }

  /** Counting once is needed.  With a second socket to every peer (a GOSSIP one next
      to the permanent connection), a group that is cut off finds the cluster up
      exactly when twice its other members are at least half of the cluster; so
      both halves of a cluster cut in two do, from four daemons on. */
  lemma DoubleCountSplits(n: set<Addr>, up: set<(Addr, Addr)>, g: set<Addr>, h: set<Addr>, d: Addr, e: Addr,
                          dOne: seq<Link>, dTwo: seq<Link>, eOne: seq<Link>, eTwo: seq<Link>)
    requires FullGroup(n, g, up) && FullGroup(n, h, up) && g !! h && d in g && e in h
    requires NamesOnce(dOne, PeersOf(n, up, d)) && NamesOnce(dTwo, PeersOf(n, up, d))
    requires NamesOnce(eOne, PeersOf(n, up, e)) && NamesOnce(eTwo, PeersOf(n, up, e))
    ensures var bothUp := IsUp(LiveCount(dOne + dTwo) + 1, Total(n)) && IsUp(LiveCount(eOne + eTwo) + 1, Total(n));
            && (bothUp <==> 2 * (|g| - 1) >= |n| / 2 && 2 * (|h| - 1) >= |n| / 2)
            && (n == g + h && |g| == |h| ==> (bothUp <==> |n| >= 4))
  {
    CountsTwice(n, up, g, d, dOne, dTwo);
    CountsTwice(n, up, h, e, eOne, eTwo);
    SubsetSize({d}, n);
    if n == g + h { assert |n| == |g| + |h|; }
  }

  /** Two halves of four, each with one permanent connection and one socket of a GOSSIP, are both up. */
  lemma HalvesOfFour()
    ensures var n, up := {0, 1, 2, 3}, {(1, 0), (3, 2)};
            var dOne, dTwo := [Dialled(0, true)], [Incoming(0, true, true)];
            var eOne, eTwo := [Dialled(2, true)], [Incoming(2, true, true)];
            && FullGroup(n, {0, 1}, up) && FullGroup(n, {2, 3}, up)
            && NamesOnce(dOne, PeersOf(n, up, 1)) && NamesOnce(dTwo, PeersOf(n, up, 1))
            && NamesOnce(eOne, PeersOf(n, up, 3)) && NamesOnce(eTwo, PeersOf(n, up, 3))
            && IsUp(LiveCount(dOne + dTwo) + 1, Total(n)) && IsUp(LiveCount(eOne + eTwo) + 1, Total(n))
  {
    var n, up := {0, 1, 2, 3}, {(1, 0), (3, 2)};
    FourInHalves();
    OneNamed(Dialled(0, true));
    OneNamed(Incoming(0, true, true));
    OneNamed(Dialled(2, true));
    OneNamed(Incoming(2, true, true));
    assert n == {0, 1} + {2, 3};
    DoubleCountSplits(n, up, {0, 1}, {2, 3}, 1, 3, [Dialled(0, true)], [Incoming(0, true, true)],
                      [Dialled(2, true)], [Incoming(2, true, true)]);
  }

  lemma FourInHalves()
    ensures var n, up := {0, 1, 2, 3}, {(1, 0), (3, 2)};
            && FullGroup(n, {0, 1}, up) && FullGroup(n, {2, 3}, up)
            && PeersOf(n, up, 1) == {0} && PeersOf(n, up, 3) == {2}
  {}

  lemma OneNamed(l: Link)
    requires Live(l)
    ensures NamesOnce([l], {Peer(l)})
  {
    assert [l][0] == l;
  }

  /** A third daemon is enough: through it, both of two daemons that are cut off from each other find the cluster up. */
  lemma BridgeKeepsBothUp(a: Addr, b: Addr, c: Addr, dLinks: seq<Link>, eLinks: seq<Link>)
    requires a != b && b != c && a != c
    requires CountsOnce({a, b, c}, {(a, c), (b, c)}, a, dLinks) && CountsOnce({a, b, c}, {(a, c), (b, c)}, b, eLinks)
    ensures Apart({a}, {b}, {(a, c), (b, c)})
    ensures IsUp(LiveCount(dLinks) + 1, Total({a, b, c})) && IsUp(LiveCount(eLinks) + 1, Total({a, b, c}))
  {
    assert PeersOf({a, b, c}, {(a, c), (b, c)}, a) == {c};
    assert PeersOf({a, b, c}, {(a, c), (b, c)}, b) == {c};
    assert |{a, b, c}| == 3;
  }
}
