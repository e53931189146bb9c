/** A broadcast can always be brought to rest: from any point of a reliable run
    there are deliveries after which none of its copies is in flight. */
module FloodSettles {
  import opened Basics
  import opened Messages
  import opened DaemonSpec
  import opened DaemonLaws
  import opened FloodSystem
  import opened FloodSafety
  import opened FloodTermination
  import opened FloodCoverage
  import opened FloodReach

  /** The links a broadcast with this service takes lead to daemons of the cluster. */
  ghost predicate Inside(s: System, service: string) {
    forall n :: n in s.hosts ==> Neighbours(s, n, service) <= s.hosts.Keys
  }

  /** No clock has passed the timeout of the identifier. */
  ghost predicate TimeLeft(s: System, id: string)
    requires id in s.issued
  {
    forall n :: n in s.hosts ==> s.hosts[n].clock <= s.issued[id].timeout
  }

  lemma TimeLeftIsOnTime(s: System, id: string)
    requires Safe(s) && id in s.issued && TimeLeft(s, id)
    ensures OnTime(s, id)
  {
    forall f | f in s.net && IdOf(f.msg) == id && f.to in s.hosts
      ensures TagOf(f.msg).timeout >= s.hosts[f.to].clock
    {
      assert GoodCopy(s, f.msg, f.path);
    }
  }

  /** A copy that is in flight can be delivered. */
  lemma CopyHasHost(s: System, id: string, f: Flight)
    requires Safe(s) && Spread(s, id) && Inside(s, s.issued[id].msg.service) && f in s.net && IdOf(f.msg) == id
    ensures f.to in s.hosts
  {
    assert GoodCopy(s, f.msg, f.path) && GoodSpread(s, id, f);
    var service, w := s.issued[id].msg.service, f.path + [f.to];
    assert w[|w| - 2] in s.hosts && w[|w| - 2 + 1] in Neighbours(s, w[|w| - 2], service);
  }

  lemma InsideSame(s: System, t: System, service: string)
    requires SameLinks(s, t) && Inside(s, service)
    ensures Inside(t, service)
  {
    forall n | n in t.hosts ensures Neighbours(t, n, service) <= t.hosts.Keys {
      NeighboursSame(s, t, n, service);
    }
  }

  /** A run of a broadcast that its timeout has not stopped yet. */
  ghost predicate Underway(s: System, acts: seq<Action>, id: string) {
    && Init(s) && IsRun(s, acts) && Reliable(acts) && AllUp(s) && AlwaysOnTime(s, acts, id)
    && id in Exec(s, acts).issued && Travels(Exec(s, acts).issued[id].msg) && TimeLeft(Exec(s, acts), id)
    && Inside(s, Exec(s, acts).issued[id].msg.service)
  }

  /** Less is left to do for the identifier, and nothing was issued. */
  ghost predicate Progress(s: System, t: System, id: string) {
    && t.issued == s.issued
    && (|| |Waiting(t, id)| < |Waiting(s, id)|
        || (Waiting(t, id) == Waiting(s, id) && InFlight(t.net, id) < InFlight(s.net, id)))
  }

  /** One more delivery. */
  lemma DeliverNext(s: System, acts: seq<Action>, id: string, i: nat)
    requires Underway(s, acts, id) && i < |Exec(s, acts).net| && IdOf(Exec(s, acts).net[i].msg) == id
    ensures Underway(s, acts + [Deliver(i, None)], id)
    ensures Progress(Exec(s, acts), Exec(s, acts + [Deliver(i, None)]), id)
  {
    var more := acts + [Deliver(i, None)];
    RunSafe(s, acts);
    NextEnabled(s, acts, id, i);
    assert more[..|more| - 1] == acts;
    DeliveryProgress(Exec(s, acts), i, id);
    RunSafe(s, more);
    TimeLeftIsOnTime(Exec(s, more), id);
  }

  lemma NextEnabled(s: System, acts: seq<Action>, id: string, i: nat)
    requires Underway(s, acts, id) && i < |Exec(s, acts).net| && IdOf(Exec(s, acts).net[i].msg) == id
    ensures Enabled(Exec(s, acts), Deliver(i, None))
  {
    var p := Exec(s, acts);
    RunSafe(s, acts);
    RunSpreads(s, acts, id);
    RunLinks(s, acts);
    InsideSame(s, p, p.issued[id].msg.service);
    CopyHasHost(p, id, p.net[i]);
  }

  lemma DeliveryProgress(s: System, i: nat, id: string)
    requires Safe(s) && Enabled(s, Deliver(i, None)) && IdOf(s.net[i].msg) == id && id in s.issued && TimeLeft(s, id)
    ensures Receive(s, i, None).issued == s.issued
    ensures TimeLeft(Receive(s, i, None), id) && Progress(s, Receive(s, i, None), id)
  {
    DeliveryDecreases(s, i, None);
  }

  lemma AtRest(s: System, acts: seq<Action>, id: string)
    requires Underway(s, acts, id) && Quiescent(Exec(s, acts), id)
    ensures Settled(s, acts, id)
  {}

  /** Deliveries alone bring the broadcast to rest. */
  lemma {:induction false} Settles(s: System, acts: seq<Action>, id: string) returns (done: seq<Action>)
    requires Underway(s, acts, id)
    ensures acts <= done && forall i :: |acts| <= i < |done| ==> done[i].Deliver?
    ensures Settled(s, done, id)
    ensures Exec(s, done).issued == Exec(s, acts).issued
    decreases |Waiting(Exec(s, acts), id)|, InFlight(Exec(s, acts).net, id)
  {
    var net := Exec(s, acts).net;
    if i :| 0 <= i < |net| && IdOf(net[i].msg) == id {
      DeliverNext(s, acts, id, i);
      done := Settles(s, acts + [Deliver(i, None)], id);
    } else {
      done := acts;
      AtRest(s, acts, id);
    }
  }
}
