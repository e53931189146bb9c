/** The deliveries that take a broadcast furthest: always a copy with the fewest
    hops.  They reach exactly the daemons within five links of the originator. */
module FloodNearest {
  import opened Basics
  import opened Messages
  import opened DaemonSpec
  import opened DaemonLaws
  import opened FloodSystem
  import opened FloodSafety
  import opened FloodTermination
  import opened FloodCoverage
  import opened FloodReach
  import opened FloodSettles

  ghost predicate HasBy(s: System, n: Ip, id: string, hops: nat) {
    exists x :: x in s.accepted && x.node == n && x.id == id && |x.path| <= hops
  }

  ghost predicate ComingBy(s: System, n: Ip, id: string, hops: nat) {
    exists f :: f in s.net && f.to == n && IdOf(f.msg) == id && |f.path| <= hops
  }

  ghost predicate Offer(s: System, n: Ip, id: string, hops: nat) {
    HasBy(s, n, id, hops) || ComingBy(s, n, id, hops)
  }

  /** The neighbours of m got the broadcast, or are about to, one hop later. */
  ghost predicate Offered(s: System, m: Ip, id: string, hops: nat)
    requires id in s.issued && m in s.hosts
  {
    forall a :: a in s.hosts && a in Neighbours(s, m, s.issued[id].msg.service) ==> Offer(s, a, id, hops + 1)
  }

  /** No copy in flight made fewer hops than one that was accepted. */
  ghost predicate HopsInOrder(s: System, id: string) {
    forall x, f :: x in s.accepted && x.id == id && f in s.net && IdOf(f.msg) == id ==> |x.path| <= |f.path|
  }

  ghost predicate Nearest(s: System, id: string)
    requires id in s.issued && s.issued[id].origin in s.hosts
  {
    && Offered(s, s.issued[id].origin, id, 0)
    && (forall x :: Forwarded(s, x, id) ==> Offered(s, x.node, id, |x.path|))
    && HopsInOrder(s, id)
  }

  // ---- one delivery -------------------------------------------------------

  /** Of the copies of the identifier, none made fewer hops. */
  ghost predicate FewestHops(net: seq<Flight>, i: nat, id: string) {
    && i < |net| && IdOf(net[i].msg) == id
    && forall f :: f in net && IdOf(f.msg) == id ==> |net[i].path| <= |f.path|
  }

  lemma {:induction false} FindFewest(net: seq<Flight>, id: string) returns (i: nat)
    requires exists f :: f in net && IdOf(f.msg) == id
    ensures FewestHops(net, i, id)
  {
    var front, last := net[..|net| - 1], net[|net| - 1];
    if f :| f in front && IdOf(f.msg) == id {
      i := FindFewest(front, id);
      if IdOf(last.msg) == id && |last.path| < |net[i].path| { i := |net| - 1; }
    } else {
      i := |net| - 1;
    }
  }

  /** What a delivery of f keeps: copy f is gone, and its receiver has the broadcast by then. */
  ghost predicate Moves(s: System, t: System, f: Flight, id: string) {
    && (forall x :: x in s.accepted ==> x in t.accepted)
    && (forall g :: g in s.net && g != f ==> g in t.net)
    && HasBy(t, f.to, id, |f.path|)
  }

  lemma OfferStays(s: System, t: System, f: Flight, id: string, n: Ip, hops: nat, more: nat)
    requires Moves(s, t, f, id) && Offer(s, n, id, hops) && hops <= more
    ensures Offer(t, n, id, more)
  {
    if HasBy(s, n, id, hops) {
      var x :| x in s.accepted && x.node == n && x.id == id && |x.path| <= hops;
      assert x in t.accepted;
    } else {
      var g :| g in s.net && g.to == n && IdOf(g.msg) == id && |g.path| <= hops;
      if g == f {
        var x :| x in t.accepted && x.node == f.to && x.id == id && |x.path| <= |f.path|;
        assert HasBy(t, n, id, more);
      } else {
        assert g in t.net;
      }
    }
  }

  lemma OfferedStays(s: System, t: System, f: Flight, id: string, m: Ip, hops: nat)
    requires SameLinks(s, t) && Moves(s, t, f, id) && m in s.hosts
    requires id in s.issued && id in t.issued && t.issued[id] == s.issued[id]
    requires Offered(s, m, id, hops)
    ensures Offered(t, m, id, hops)
  {
    NeighboursSame(s, t, m, s.issued[id].msg.service);
    forall a | a in t.hosts && a in Neighbours(t, m, t.issued[id].msg.service) ensures Offer(t, a, id, hops + 1) {
      OfferStays(s, t, f, id, a, hops + 1, hops + 1);
    }
  }

  /** A copy that the gate refuses. */
  lemma NearestRefused(s: System, t: System, f: Flight, id: string)
    requires id in s.issued && s.issued[id].origin in s.hosts && Nearest(s, id)
    requires SameLinks(s, t) && t.issued == s.issued && Moves(s, t, f, id)
    requires t.accepted == s.accepted && forall g :: g in t.net ==> g in s.net
    ensures Nearest(t, id)
  {
    OfferedStays(s, t, f, id, s.issued[id].origin, 0);
    forall x | Forwarded(t, x, id) ensures Offered(t, x.node, id, |x.path|) {
      assert Forwarded(s, x, id);
      OfferedStays(s, t, f, id, x.node, |x.path|);
    }
  }

  /** A daemon that accepts offers the broadcast to its neighbours. */
  lemma AcceptorOffers(s: System, t: System, f: Flight, id: string, flights: seq<Flight>)
    requires Safe(s) && Spread(s, id) && Nearest(s, id) && f in s.net && IdOf(f.msg) == id && f.to in s.hosts
    requires f.msg.tag.Some? && GoesOn(s, t, f, id, flights) && Moves(s, t, f, id)
    requires |f.path| < 5 && forall g :: g in flights ==> g in t.net
    ensures Offered(t, f.to, id, |f.path|)
  {
    var service := s.issued[id].msg.service;
    NeighboursSame(s, t, f.to, service);
    forall a | a in t.hosts && a in Neighbours(t, f.to, service) ensures Offer(t, a, id, |f.path| + 1) {
      if a in f.msg.tag.value.informed {
        InformedIsOffered(s, id, f, a);
        OfferStays(s, t, f, id, a, |f.path|, |f.path| + 1);
      } else {
        NotInformedIsSent(s, f, id, flights, a);
        var g :| g in flights && g.to == a && IdOf(g.msg) == id && |g.path| == |f.path| + 1;
        assert g in t.net;
      }
    }
  }

  lemma NotInformedIsSent(s: System, f: Flight, id: string, flights: seq<Flight>, a: Ip)
    requires id in s.issued && f.to in s.hosts && f.msg.tag.Some? && SentOn(s, f, id, flights) && |f.path| < 5
    requires a in Neighbours(s, f.to, s.issued[id].msg.service) && a !in f.msg.tag.value.informed
    ensures exists g :: g in flights && g.to == a && IdOf(g.msg) == id && |g.path| == |f.path| + 1
  {
    var near := Neighbours(s, f.to, s.issued[id].msg.service);
    var tos := set g | g in flights :: g.to;
    assert tos == near - f.msg.tag.value.informed;
    assert a in tos;
    var g :| g in flights && g.to == a;
  }

  /** Whoever is on the informed list of a copy was offered the broadcast earlier. */
  lemma InformedIsOffered(s: System, id: string, f: Flight, a: Ip)
    requires Safe(s) && Spread(s, id) && Nearest(s, id) && f in s.net && IdOf(f.msg) == id
    requires f.msg.tag.Some? && a in f.msg.tag.value.informed && a in s.hosts
    ensures Offer(s, a, id, |f.path|)
  {
    var service := s.issued[id].msg.service;
    assert GoodCopy(s, f.msg, f.path) && GoodSpread(s, id, f);
    assert KnownFrom(s, service, f.path, a);
    var i :| 0 <= i < |f.path| && f.path[i] in s.hosts && a in Neighbours(s, f.path[i], service);
    if i > 0 {
      var x := Acceptance(f.path[i], id, f.path[..i]);
      assert Forwarded(s, x, id);
      assert Offered(s, x.node, id, |x.path|);
    }
    assert Offer(s, a, id, i + 1);
    OfferLater(s, a, id, i + 1, |f.path|);
  }

  lemma OfferLater(s: System, n: Ip, id: string, hops: nat, more: nat)
    requires Offer(s, n, id, hops) && hops <= more
    ensures Offer(s, n, id, more)
  {
    if HasBy(s, n, id, hops) {
      var x :| x in s.accepted && x.node == n && x.id == id && |x.path| <= hops;
    } else {
      var g :| g in s.net && g.to == n && IdOf(g.msg) == id && |g.path| <= hops;
    }
  }

  /** A copy that passes the gate. */
  lemma NearestAccepted(s: System, t: System, f: Flight, id: string, flights: seq<Flight>)
    requires Safe(s) && Spread(s, id) && Nearest(s, id) && f in s.net && IdOf(f.msg) == id && f.to in s.hosts
    requires f.msg.tag.Some? && GoesOn(s, t, f, id, flights) && Moves(s, t, f, id)
    requires forall g :: g in flights ==> g in t.net
    requires forall g :: g in s.net && IdOf(g.msg) == id ==> |f.path| <= |g.path|
    ensures Nearest(t, id)
  {
    OfferedStays(s, t, f, id, s.issued[id].origin, 0);
    var last := Acceptance(f.to, id, f.path);
    forall x | Forwarded(t, x, id) ensures Offered(t, x.node, id, |x.path|) {
      if x == last {
        AcceptorOffers(s, t, f, id, flights);
      } else {
        assert Forwarded(s, x, id);
        OfferedStays(s, t, f, id, x.node, |x.path|);
      }
    }
    forall x, g | x in t.accepted && x.id == id && g in t.net && IdOf(g.msg) == id ensures |x.path| <= |g.path| {
      assert |x.path| <= |f.path|;
      if g !in s.net { assert g in flights; }
    }
  }

  /** What is in the network after a delivery. */
  lemma DeliveredNet(s: System, i: nat)
    requires Enabled(s, Deliver(i, None))
    ensures var f, t := s.net[i], Receive(s, i, None);
            var d := s.hosts[f.to].daemon;
            var flights := Launch(d, Dispatch(d, s.hosts[f.to].clock, f.msg, None).relays, f.path + [f.to]);
            && t.net == Without(s.net, i) + flights && t.issued == s.issued
            && (forall g :: g in s.net && g != f ==> g in t.net)
            && (forall x :: x in s.accepted ==> x in t.accepted)
  {
    var net := s.net;
    forall g | g in net && g != net[i] ensures g in Without(net, i) {
      var j :| 0 <= j < |net| && net[j] == g;
      assert j < i ==> Without(net, i)[j] == g;
      assert j > i ==> Without(net, i)[j - 1] == g;
    }
  }

  /** Somebody who refuses a copy in time has accepted another before. */
  lemma RefusedHas(s: System, i: nat, id: string)
    requires Safe(s) && Remembered(s) && Enabled(s, Deliver(i, None)) && AllUp(s) && IdOf(s.net[i].msg) == id
    requires id in s.issued && Travels(s.issued[id].msg) && TimeLeft(s, id)
    requires var f := s.net[i];
             var d := s.hosts[f.to].daemon;
             !Recorded(d, Dispatch(d, s.hosts[f.to].clock, f.msg, None), id)
    ensures HasAccepted(s, s.net[i].to, id)
    ensures Receive(s, i, None).accepted == s.accepted
  {
    var f := s.net[i];
    TimeLeftIsOnTime(s, id);
    DeliveredMeansAccepted(s, i, None);
    assert HasAccepted(Receive(s, i, None), f.to, id);
  }

  lemma NearestStep(s: System, i: nat, id: string)
    requires Safe(s) && Remembered(s) && Spread(s, id) && Nearest(s, id) && AllUp(s) && TimeLeft(s, id)
    requires Enabled(s, Deliver(i, None)) && FewestHops(s.net, i, id)
    requires SameLinks(s, Receive(s, i, None))
    ensures Nearest(Receive(s, i, None), id)
  {
    var f := s.net[i];
    var d := s.hosts[f.to].daemon;
    if Recorded(d, Dispatch(d, s.hosts[f.to].clock, f.msg, None), id) {
      AcceptedNearest(s, i, id);
    } else {
      DeliveredNet(s, i);
      RefusedHas(s, i, id);
      DeliveredIds(s, i, None);
      RefusedNearest(s, Receive(s, i, None), i, id);
    }
  }

  lemma RefusedNearest(s: System, t: System, i: nat, id: string)
    requires id in s.issued && s.issued[id].origin in s.hosts && Nearest(s, id) && FewestHops(s.net, i, id)
    requires SameLinks(s, t) && t.issued == s.issued && t.accepted == s.accepted
    requires t.net == Without(s.net, i) && forall g :: g in s.net && g != s.net[i] ==> g in t.net
    requires HasAccepted(s, s.net[i].to, id)
    ensures Nearest(t, id)
  {
    var f := s.net[i];
    assert f in s.net;
    var x :| x in s.accepted && x.node == f.to && x.id == id;
    assert |x.path| <= |f.path| && HasBy(t, f.to, id, |f.path|);
    NearestRefused(s, t, f, id);
  }

  lemma AcceptedNearest(s: System, i: nat, id: string)
    requires Safe(s) && Spread(s, id) && Nearest(s, id)
    requires Enabled(s, Deliver(i, None)) && FewestHops(s.net, i, id)
    requires var f := s.net[i];
             var d := s.hosts[f.to].daemon;
             Recorded(d, Dispatch(d, s.hosts[f.to].clock, f.msg, None), id)
    ensures Nearest(Receive(s, i, None), id)
  {
    var f, t := s.net[i], Receive(s, i, None);
    var flights := AcceptGoesOn(s, i, None, id);
    var d := s.hosts[f.to].daemon;
    DeliveredNet(s, i);
    assert f in s.net && t.accepted[|s.accepted|] == Acceptance(f.to, id, f.path);
    assert HasBy(t, f.to, id, |f.path|);
    NearestAccepted(s, t, f, id, flights);
  }

  // ---- whole runs ---------------------------------------------------------

  lemma SecondAccepted(s: System, id: string, path: seq<Ip>)
    requires GoodPath(s, id, path) && |path| > 1
    ensures exists x :: x in s.accepted && x.id == id
  {
    assert Acceptance(path[1], id, path[..1]) in s.accepted;
  }

  /** A broadcast that nobody has accepted yet. */
  lemma NearestStart(s: System, acts: seq<Action>, id: string)
    requires Underway(s, acts, id) && forall x :: x in Exec(s, acts).accepted ==> x.id != id
    ensures Furthest(s, acts, id)
  {
    var t := Exec(s, acts);
    RunSafe(s, acts);
    RunSpreads(s, acts, id);
    RunCarries(s, acts, id);
    assert GoodIssue(t, id);
    forall a | a in t.hosts && a in Neighbours(t, t.issued[id].origin, t.issued[id].msg.service)
      ensures Offer(t, a, id, 1)
    {
      assert IsTarget(t, id, a) && (a, id) in t.sent;
      var f :| f in t.net && f.to == a && IdOf(f.msg) == id;
      assert GoodCopy(t, f.msg, f.path);
      if |f.path| > 1 { SecondAccepted(t, id, f.path); }
    }
  }

  /** A run that takes the broadcast as far as it can. */
  ghost predicate Furthest(s: System, acts: seq<Action>, id: string) {
    && Underway(s, acts, id)
    && Exec(s, acts).issued[id].origin in Exec(s, acts).hosts && Nearest(Exec(s, acts), id)
  }

  lemma NearestNext(s: System, acts: seq<Action>, id: string, i: nat)
    requires Furthest(s, acts, id) && FewestHops(Exec(s, acts).net, i, id)
    ensures Furthest(s, acts + [Deliver(i, None)], id)
    ensures Progress(Exec(s, acts), Exec(s, acts + [Deliver(i, None)]), id)
  {
    var p := Exec(s, acts);
    DeliverNext(s, acts, id, i);
    NextEnabled(s, acts, id, i);
    RunSafe(s, acts);
    RunSpreads(s, acts, id);
    RunRemembers(s, acts);
    RunLinks(s, acts);
    LinksStep(p, Deliver(i, None));
    NearestStep(p, i, id);
    ExecNext(s, acts, Deliver(i, None));
  }

  lemma ExecNext(s: System, acts: seq<Action>, a: Action)
    requires IsRun(s, acts) && Enabled(Exec(s, acts), a)
    ensures IsRun(s, acts + [a]) && Exec(s, acts + [a]) == Apply(Exec(s, acts), a)
  {
    assert (acts + [a])[..|acts + [a]| - 1] == acts;
  }

  lemma {:induction false} NearestSettles(s: System, acts: seq<Action>, id: string) returns (done: seq<Action>)
    requires Furthest(s, acts, id)
    ensures acts <= done && forall i :: |acts| <= i < |done| ==> done[i].Deliver?
    ensures Settled(s, done, id) && Furthest(s, done, id)
    ensures Exec(s, done).issued == Exec(s, acts).issued
    decreases |Waiting(Exec(s, acts), id)|, InFlight(Exec(s, acts).net, id)
  {
    var net := Exec(s, acts).net;
    if f :| f in net && IdOf(f.msg) == id {
      var i := FindFewest(net, id);
      NearestNext(s, acts, id, i);
      done := NearestSettles(s, acts + [Deliver(i, None)], id);
    } else {
      done := acts;
      AtRest(s, acts, id);
    }
  }

  /** When it is at rest, a daemon that is i links along a walk has accepted after at most i hops. */
  lemma {:induction false} WalkHasBy(s: System, id: string, w: seq<Ip>, i: nat)
    requires id in s.issued && s.issued[id].origin in s.hosts && Nearest(s, id) && Quiescent(s, id)
    requires IsWalk(s, s.issued[id].msg.service, w) && w[0] == s.issued[id].origin && i < |w| <= 6
    requires i > 0 && w[i] in s.hosts
    ensures HasBy(s, w[i], id, i)
  {
    var service := s.issued[id].msg.service;
    assert w[i - 1] in s.hosts && w[i - 1 + 1] in Neighbours(s, w[i - 1], service);
    if i == 1 {
      assert Offer(s, w[1], id, 1);
    } else {
      WalkHasBy(s, id, w, i - 1);
      var x :| x in s.accepted && x.node == w[i - 1] && x.id == id && |x.path| <= i - 1;
      assert Forwarded(s, x, id) && Offered(s, x.node, id, |x.path|);
      assert Offer(s, w[i], id, |x.path| + 1);
    }
  }

  /** A broadcast that nobody has accepted yet has a continuation of its run, of
      deliveries alone, that reaches exactly the daemons within five links. */
  lemma NearestReaches(s: System, acts: seq<Action>, id: string) returns (done: seq<Action>)
    requires Underway(s, acts, id) && forall x :: x in Exec(s, acts).accepted ==> x.id != id
    ensures acts <= done && forall i :: |acts| <= i < |done| ==> done[i].Deliver?
    ensures Settled(s, done, id) && Exec(s, done).issued == Exec(s, acts).issued
    ensures var x := Exec(s, done).issued[id];
            forall n :: n in s.hosts ==>
              (n in Reached(Exec(s, done), id) <==> WithinLinks(s, x.msg.service, 5, x.origin, n))
  {
    NearestStart(s, acts, id);
    done := NearestSettles(s, acts, id);
    var t := Exec(s, done);
    var service, origin := t.issued[id].msg.service, t.issued[id].origin;
    RunLinks(s, done);
    forall n | n in s.hosts ensures n in Reached(t, id) <==> WithinLinks(s, service, 5, origin, n) {
      NearestExactly(s, done, id, n);
    }
  }

  lemma NearestExactly(s: System, done: seq<Action>, id: string, n: Ip)
    requires Settled(s, done, id) && Furthest(s, done, id) && n in s.hosts
    ensures var x := Exec(s, done).issued[id];
            n in Reached(Exec(s, done), id) <==> WithinLinks(s, x.msg.service, 5, x.origin, n)
  {
    var t := Exec(s, done);
    var service, origin := t.issued[id].msg.service, t.issued[id].origin;
    RunLinks(s, done);
    if n == origin {
      assert IsWalk(s, service, [origin]);
    } else if WithinLinks(s, service, 5, origin, n) {
      var w :| IsWalk(s, service, w) && |w| <= 6 && w[0] == origin && w[|w| - 1] == n;
      WalkSame(s, t, service, w);
      WalkHasBy(t, id, w, |w| - 1);
      assert HasAccepted(t, n, id);
    } else {
      FarIsNotReached(s, done, id, n);
    }
  }

  lemma {:induction false} IssuedStays(s: System, acts: seq<Action>, done: seq<Action>, id: string)
    requires Init(s) && IsRun(s, done) && acts <= done
    ensures IsRun(s, acts)
    ensures id in Exec(s, acts).issued ==>
              id in Exec(s, done).issued && Exec(s, done).issued[id] == Exec(s, acts).issued[id]
    decreases |done|
  {
    if acts == done {
    } else {
      var front := done[..|done| - 1];
      IssuedStays(s, acts, front, id);
      RunSafe(s, front);
      StepSafe(Exec(s, front), done[|done| - 1]);
    }
  }

  /** Coverage is possible at all, in some continuation, if and only if every
      daemon is within five links of the originator. */
  lemma CoverageIsPossible(s: System, acts: seq<Action>, id: string)
    requires Underway(s, acts, id) && forall x :: x in Exec(s, acts).accepted ==> x.id != id
    ensures var x := Exec(s, acts).issued[id];
            (exists done :: acts <= done && Settled(s, done, id) && Reached(Exec(s, done), id) == s.hosts.Keys)
            <==> forall n :: n in s.hosts ==> WithinLinks(s, x.msg.service, 5, x.origin, n)
  {
    var x := Exec(s, acts).issued[id];
    var near := NearestReaches(s, acts, id);
    RunLinks(s, near);
    if forall n :: n in s.hosts ==> WithinLinks(s, x.msg.service, 5, x.origin, n) {
      assert Reached(Exec(s, near), id) == s.hosts.Keys;
    }
    if done :| acts <= done && Settled(s, done, id) && Reached(Exec(s, done), id) == s.hosts.Keys {
      IssuedStays(s, acts, done, id);
      forall n | n in s.hosts ensures WithinLinks(s, x.msg.service, 5, x.origin, n) {
        if n == x.origin {
          assert IsWalk(s, x.msg.service, [n]);
        } else if !WithinLinks(s, x.msg.service, 5, x.origin, n) {
          FarIsNotReached(s, done, id, n);
        }
      }
    }
  }
}
