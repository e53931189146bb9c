/** Whole runs of the class: what it knows, what it dials, what it has registered, and when it dials. */
module RemoteCommunicatorsRuns {
  import opened RemoteCommunicatorsState

  datatype Op =
    | AddOp(a: Addr, now: int, connected: bool, ok: bool)
    | LostOp(a: Addr, ok: bool)
    | ReceivedOp(a: Addr)
    | StopOp
    | BusyOp(a: Addr)
    | DownOp(a: Addr)
    | ForgetOp(a: Addr)

  function Apply(l: Links, op: Op): Links {
    match op
    case AddOp(a, now, connected, ok) => Add(l, a, now, connected, ok)
    case LostOp(a, ok) => Lost(l, a, ok)
    case ReceivedOp(a) => GossipReceived(l, a)
    case StopOp => StopGossip(l)
    case BusyOp(a) => Pause(l, a, TOO_BUSY_TIMEOUT)
    case DownOp(a) => Pause(l, a, RECONNECT_TIMEOUT)
    case ForgetOp(a) => Forget(l, a)
  }

  function Run(me: Addr, ops: seq<Op>): Links {
    if ops == [] then Fresh(me) else Apply(Run(me, ops[..|ops| - 1]), ops[|ops| - 1])
  }

  function Handles(smaller: map<Addr, Dial>): set<nat> {
    set a | a in smaller :: smaller[a].handle
  }

  /** Every object is in at most one place of one map. */
  ghost predicate OneOwner(l: Links) {
    && (forall a, b :: a in l.smaller && b in l.smaller && a != b ==> l.smaller[a].handle != l.smaller[b].handle)
    && (forall a, b :: a in l.gossip && b in l.gossip && a != b ==> l.gossip[a] != l.gossip[b])
    && (forall a, b :: a in l.smaller && b in l.gossip ==> l.smaller[a].handle != l.gossip[b])
    && (forall a :: a in l.smaller ==> l.smaller[a].handle < l.next)
    && (forall a :: a in l.gossip ==> l.gossip[a] < l.next)
    && (forall h :: h in l.registered ==> h < l.next)
  }

  /** True of every run, whatever fails or is forgotten. */
  ghost predicate Sound(l: Links) {
    && l.me !in l.all
    && (forall a :: a in l.smaller ==> a in l.all && a < l.me)
    && OneOwner(l)
    && Handles(l.smaller) + l.gossip.Values <= l.registered
  }

  lemma SoundAdd(l: Links, a: Addr, now: int, connected: bool, ok: bool)
    requires Sound(l)
    ensures Sound(Add(l, a, now, connected, ok))
  {
    if a != l.me && a in l.all && a < l.me && a in l.smaller && !connected {
      HandlesSame(l.smaller, a, Add(l, a, now, connected, ok).smaller[a]);
    } else if a != l.me && a !in l.all && a < l.me {
      SoundDial(l.(all := l.all + {a}), a, now, ok);
    } else if a != l.me && a !in l.all {
      SoundLost(l.(all := l.all + {a}), a, ok);
    }
  }

  lemma SoundDial(l: Links, a: Addr, now: int, ok: bool)
    requires Sound(l) && a in l.all && a < l.me && a !in l.smaller
    ensures Sound(DialNew(l, a, now, ok))
  {}

  lemma HandlesSame(smaller: map<Addr, Dial>, a: Addr, dial: Dial)
    requires a in smaller && dial.handle == smaller[a].handle
    ensures Handles(smaller[a := dial]) == Handles(smaller)
  {
    var m := smaller[a := dial];
    forall h ensures h in Handles(m) <==> h in Handles(smaller) {
      if h in Handles(smaller) {
        var b :| b in smaller && smaller[b].handle == h;
        assert b in m && m[b].handle == h;
      }
    }
  }

  lemma SoundLost(l: Links, a: Addr, ok: bool)
    requires Sound(l)
    ensures Sound(Lost(l, a, ok))
  {}

  lemma SoundReceived(l: Links, a: Addr)
    requires Sound(l)
    ensures Sound(GossipReceived(l, a))
  {}

  lemma SoundForget(l: Links, a: Addr)
    requires Sound(l)
    ensures Sound(Forget(l, a))
  {}

  lemma SoundStop(l: Links)
    requires Sound(l)
    ensures Sound(StopGossip(l))
  {}

  lemma SoundPause(l: Links, a: Addr, delay: int)
    requires Sound(l)
    ensures Sound(Pause(l, a, delay))
  {
    if a in l.smaller { HandlesSame(l.smaller, a, Pause(l, a, delay).smaller[a]); }
  }

  lemma SoundStep(l: Links, op: Op)
    requires Sound(l)
    ensures Sound(Apply(l, op))
  {
    match op
    case AddOp(a, now, connected, ok) => SoundAdd(l, a, now, connected, ok);
    case LostOp(a, ok) => SoundLost(l, a, ok);
    case ReceivedOp(a) => SoundReceived(l, a);
    case StopOp => SoundStop(l);
    case BusyOp(a) => SoundPause(l, a, TOO_BUSY_TIMEOUT);
    case DownOp(a) => SoundPause(l, a, RECONNECT_TIMEOUT);
    case ForgetOp(a) => SoundForget(l, a);
  }

  lemma SameAddress(l: Links, op: Op)
    ensures Apply(l, op).me == l.me
  {}

  lemma {:induction false} RunSound(me: Addr, ops: seq<Op>)
    ensures Sound(Run(me, ops)) && Run(me, ops).me == me
  {
    if ops != [] {
      RunSound(me, ops[..|ops| - 1]);
      SoundStep(Run(me, ops[..|ops| - 1]), ops[|ops| - 1]);
      SameAddress(Run(me, ops[..|ops| - 1]), ops[|ops| - 1]);
    }
  }

  // ---- which addresses are dialled ----------------------------------------

  predicate Adds(op: Op, a: Addr) {
    op.AddOp? && op.a == a
  }

  ghost predicate EverAdded(ops: seq<Op>, a: Addr) {
    exists i :: 0 <= i < |ops| && Adds(ops[i], a)
  }

  /** The i-th operation is the first Add of a, the dispatcher took the
      connection, and nobody asked to forget the address since. */
  ghost predicate WantedSince(ops: seq<Op>, a: Addr, i: nat) {
    && i < |ops| && Adds(ops[i], a) && ops[i].ok
    && (forall j :: 0 <= j < i ==> !Adds(ops[j], a))
    && (forall j :: i < j < |ops| ==> ops[j] != ForgetOp(a))
  }

  ghost predicate Wanted(ops: seq<Op>, a: Addr) {
    exists i: nat :: WantedSince(ops, a, i)
  }

  lemma EverAddedStep(before: seq<Op>, op: Op, a: Addr)
    ensures EverAdded(before + [op], a) <==> EverAdded(before, a) || Adds(op, a)
  {
    var ops := before + [op];
    if EverAdded(before, a) {
      var i :| 0 <= i < |before| && Adds(before[i], a);
      assert Adds(ops[i], a);
    }
    if Adds(op, a) { assert Adds(ops[|before|], a); }
  }

  lemma WantedStep(before: seq<Op>, op: Op, a: Addr)
    ensures Wanted(before + [op], a)
       <==> if op == ForgetOp(a) then false
            else if Adds(op, a) && !EverAdded(before, a) then op.ok
            else Wanted(before, a)
  {
    var ops, n := before + [op], |before|;
    if Wanted(ops, a) {
      var i: nat :| WantedSince(ops, a, i);
      if i < n {
        assert ops[n] == op && Adds(before[i], a);
        forall j | 0 <= j < i ensures !Adds(before[j], a) { assert ops[j] == before[j]; }
        forall j | i < j < n ensures before[j] != ForgetOp(a) { assert ops[j] == before[j]; }
        assert WantedSince(before, a, i);
      } else {
        forall j | 0 <= j < n ensures !Adds(before[j], a) { assert ops[j] == before[j]; }
      }
    }
    if Wanted(before, a) && op != ForgetOp(a) {
      var i: nat :| WantedSince(before, a, i);
      assert Adds(before[i], a);
      assert WantedSince(ops, a, i);
    }
    if Adds(op, a) && !EverAdded(before, a) && op.ok {
      assert WantedSince(ops, a, n);
    }
  }

  /** An address is known, for good, once it was added and is not our own. */
  lemma {:induction false} KnownExactly(me: Addr, ops: seq<Op>, a: Addr)
    ensures a in Run(me, ops).all <==> a != me && EverAdded(ops, a)
  {
    if ops != [] {
      var before, op := ops[..|ops| - 1], ops[|ops| - 1];
      KnownExactly(me, before, a);
      RunSound(me, before);
      EverAddedStep(before, op, a);
      assert ops == before + [op];
    }
  }

  lemma DialStep(l: Links, op: Op, a: Addr)
    requires Sound(l) && a < l.me
    ensures a in Apply(l, op).smaller
       <==> if op == ForgetOp(a) then false
            else if Adds(op, a) && a !in l.all then op.ok
            else a in l.smaller
  {}

  /** For every run, with failures and FORGETs: a smaller address is dialled if and
      only if the dispatcher took it when it was first added and it was not
      forgotten since.  One that was forgotten, or failed once, is never dialled again. */
  lemma {:induction false} DialledExactly(me: Addr, ops: seq<Op>, a: Addr)
    requires a < me
    ensures a in Run(me, ops).smaller <==> Wanted(ops, a)
  {
    if ops != [] {
      var before, op := ops[..|ops| - 1], ops[|ops| - 1];
      DialledExactly(me, before, a);
      KnownExactly(me, before, a);
      RunSound(me, before);
      DialStep(Run(me, before), op, a);
      WantedStep(before, op, a);
      assert ops == before + [op];
    }
  }

  // ---- what is registered -------------------------------------------------

  ghost predicate Healthy(op: Op) {
    !op.ForgetOp? && (op.AddOp? ==> op.ok) && (op.LostOp? ==> op.ok)
  }

  /** The membership invariant: own address unknown, all smaller addresses dialled
      and no others, and what is registered is what the two maps hold. */
  ghost predicate Member(l: Links) {
    && l.me !in l.all
    && l.smaller.Keys == (set a | a in l.all && a < l.me)
    && l.registered == Handles(l.smaller) + l.gossip.Values
  }

  lemma {:induction false} MembershipKept(me: Addr, ops: seq<Op>)
    requires forall op :: op in ops ==> Healthy(op)
    ensures Member(Run(me, ops)) && Run(me, ops).me == me
    ensures |Run(me, ops).registered| == |Run(me, ops).smaller| + |Run(me, ops).gossip|
  {
    RunSound(me, ops);
    if ops != [] {
      var l := Run(me, ops[..|ops| - 1]);
      MembershipKept(me, ops[..|ops| - 1]);
      RunSound(me, ops[..|ops| - 1]);
      assert ops[|ops| - 1] in ops;
      MemberStep(l, ops[|ops| - 1]);
    }
    RegisteredCount(Run(me, ops));
  }

  lemma MemberStep(l: Links, op: Op)
    requires Sound(l) && Member(l) && Healthy(op)
    ensures Member(Apply(l, op))
  {
    match op
    case AddOp(a, now, connected, ok) => MemberAdd(l, a, now, connected);
    case LostOp(a, ok) => MemberLost(l, a);
    case ReceivedOp(a) => MemberReceived(l, a);
    case StopOp => MemberStop(l);
    case BusyOp(a) => MemberPause(l, a, TOO_BUSY_TIMEOUT);
    case DownOp(a) => MemberPause(l, a, RECONNECT_TIMEOUT);
  }

  lemma HandlesNew(smaller: map<Addr, Dial>, a: Addr, dial: Dial)
    requires a !in smaller
    ensures Handles(smaller[a := dial]) == Handles(smaller) + {dial.handle}
  {
    var m := smaller[a := dial];
    assert a in m && m[a].handle == dial.handle;
    forall h | h in Handles(smaller) ensures h in Handles(m) {
      var b :| b in smaller && smaller[b].handle == h;
      assert b in m && m[b].handle == h;
    }
  }

  lemma ValuesNew(gossip: map<Addr, nat>, a: Addr, h: nat)
    requires a !in gossip
    ensures gossip[a := h].Values == gossip.Values + {h}
  {
    var m := gossip[a := h];
    assert a in m && m[a] == h;
    forall v | v in gossip.Values ensures v in m.Values {
      var b :| b in gossip && gossip[b] == v;
      assert b in m && m[b] == v;
    }
  }

  lemma MemberLost(l: Links, a: Addr)
    requires Member(l)
    ensures Member(Lost(l, a, true))
  {
    if a !in l.gossip { ValuesNew(l.gossip, a, l.next); }
  }

  lemma MemberPause(l: Links, a: Addr, delay: int)
    requires Member(l)
    ensures Member(Pause(l, a, delay))
  {
    if a in l.smaller { HandlesSame(l.smaller, a, Pause(l, a, delay).smaller[a]); }
  }

  lemma MemberAdd(l: Links, a: Addr, now: int, connected: bool)
    requires Sound(l) && Member(l)
    ensures Member(Add(l, a, now, connected, true))
  {
    var t := Add(l, a, now, connected, true);
    if a == l.me {
    } else if a in l.all {
      if a < l.me && a in l.smaller && !connected { HandlesSame(l.smaller, a, t.smaller[a]); }
    } else if a < l.me {
      HandlesNew(l.smaller, a, t.smaller[a]);
    } else if a !in l.gossip {
      ValuesNew(l.gossip, a, l.next);
    }
  }

  lemma MemberReceived(l: Links, a: Addr)
    requires Sound(l) && Member(l)
    ensures Member(GossipReceived(l, a))
  {
    if a in l.gossip {
      var t := GossipReceived(l, a);
      forall h ensures h in t.registered <==> h in Handles(t.smaller) + t.gossip.Values {
        if h in l.gossip.Values && h != l.gossip[a] {
          var b :| b in l.gossip && l.gossip[b] == h;
          assert b in t.gossip && t.gossip[b] == h;
        }
      }
    }
  }

  /** After stop_gossiping only the dialled connections are registered. */
  lemma MemberStop(l: Links)
    requires Sound(l) && Member(l)
    ensures Member(StopGossip(l)) && StopGossip(l).registered == Handles(l.smaller)
  {
    assert Handles(l.smaller) !! l.gossip.Values;
  }

  lemma {:induction false} ImageSize(m: map<Addr, nat>)
    requires forall a, b :: a in m && b in m && a != b ==> m[a] != m[b]
    ensures |m.Values| == |m|
  {
    if m == map[] {
      assert m.Values == {};
    } else {
      assert exists a :: a in m;
      var a :| a in m;
      var r := m - {a};
      ImageSize(r);
      assert m == r[a := m[a]];
      ValuesNew(r, a, m[a]);
    }
  }

  lemma HandleCount(smaller: map<Addr, Dial>)
    requires forall a, b :: a in smaller && b in smaller && a != b ==> smaller[a].handle != smaller[b].handle
    ensures |Handles(smaller)| == |smaller|
  {
    var dialled := map a | a in smaller :: smaller[a].handle;
    forall h ensures h in dialled.Values <==> h in Handles(smaller) {
      if h in Handles(smaller) {
        var a :| a in smaller && smaller[a].handle == h;
        assert a in dialled && dialled[a] == h;
      }
    }
    assert dialled.Values == Handles(smaller);
    ImageSize(dialled);
    assert dialled.Keys == smaller.Keys;
    assert |dialled| == |dialled.Keys| && |smaller| == |smaller.Keys|;
  }

  lemma RegisteredCount(l: Links)
    requires Sound(l) && Member(l)
    ensures |l.registered| == |l.smaller| + |l.gossip|
  {
    HandleCount(l.smaller);
    ImageSize(l.gossip);
    assert Handles(l.smaller) !! l.gossip.Values;
  }

  /** FORGET leaves a gossip connection behind in the dispatcher, and only then the registered set is off. */
  lemma ForgetLeaks(l: Links, a: Addr)
    requires Sound(l) && Member(l)
    ensures var t := Forget(l, a);
            t.registered == Handles(t.smaller) + t.gossip.Values <==> a !in l.gossip
  {
    var t := Forget(l, a);
    if a in l.gossip {
      assert l.gossip[a] in t.registered;
      assert l.gossip[a] !in Handles(t.smaller) + t.gossip.Values;
    } else {
      assert t.gossip == l.gossip;
      forall h ensures h in t.registered <==> h in Handles(t.smaller) + t.gossip.Values {
        if h in Handles(l.smaller) && h in t.registered {
          var b :| b in l.smaller && l.smaller[b].handle == h;
          assert b in t.smaller || b == a;
        }
      }
    }
  }

  // ---- when they are dialled ----------------------------------------------

  /** The clock at the i-th creation of a dialled connection, and the date it was given. */
  datatype Start = Start(now: int, date: int)

  predicate CreatesDial(l: Links, op: Op) {
    op.AddOp? && op.a < l.me && op.a !in l.all
  }

  function Starts(me: Addr, ops: seq<Op>): seq<Start> {
    if ops == [] then []
    else
      var l, op := Run(me, ops[..|ops| - 1]), ops[|ops| - 1];
      Starts(me, ops[..|ops| - 1])
      + if CreatesDial(l, op) then [Start(op.now, Later(op.now, l.lastStart))] else []
  }

  /** A connection that was just created carries the date recorded for it. */
  lemma StartIsDate(me: Addr, ops: seq<Op>)
    requires ops != [] && CreatesDial(Run(me, ops[..|ops| - 1]), ops[|ops| - 1]) && ops[|ops| - 1].ok
    ensures var a := ops[|ops| - 1].a;
            && a in Run(me, ops).smaller && Starts(me, ops) != []
            && Run(me, ops).smaller[a].date == Starts(me, ops)[|Starts(me, ops)| - 1].date * SECOND
  {
    RunSound(me, ops[..|ops| - 1]);
  }

  /** d is the largest of now_j + (i - j), for j up to i. */
  ghost predicate IsStaggered(s: seq<Start>, i: nat, d: int)
    requires i < |s|
  {
    && (forall j :: 0 <= j <= i ==> s[j].now + (i - j) <= d)
    && (exists j :: 0 <= j <= i && s[j].now + (i - j) == d)
  }

  ghost predicate ClosedForm(s: seq<Start>, last: int) {
    && (forall i :: 0 <= i < |s| ==> IsStaggered(s, i, s[i].date))
    && (if s == [] then last == 0 else last == s[|s| - 1].date + 1)
  }

  lemma StaggeredEarlier(s: seq<Start>, t: seq<Start>, i: nat, d: int)
    requires i < |s| && s <= t && IsStaggered(s, i, d)
    ensures IsStaggered(t, i, d)
  {
    var j :| 0 <= j <= i && s[j].now + (i - j) == d;
    assert t[j].now + (i - j) == d;
  }

  lemma StaggeredLast(s: seq<Start>, last: int, now: int)
    requires ClosedForm(s, last) && now >= 0
    ensures IsStaggered(s + [Start(now, Later(now, last))], |s|, Later(now, last))
  {
    var d := Later(now, last);
    var t, n := s + [Start(now, d)], |s|;
    if n == 0 {
      assert t[0].now + (0 - 0) == d;
    } else {
      StaggeredNext(s, now, d);
    }
  }

  lemma StaggeredNext(s: seq<Start>, now: int, d: int)
    requires s != [] && IsStaggered(s, |s| - 1, s[|s| - 1].date)
    requires d == if now > s[|s| - 1].date + 1 then now else s[|s| - 1].date + 1
    ensures IsStaggered(s + [Start(now, d)], |s|, d)
  {
    var t, n := s + [Start(now, d)], |s|;
    var k :| 0 <= k <= n - 1 && s[k].now + (n - 1 - k) == s[n - 1].date;
    var j := if d == now then n else k;
    assert t[j].now + (n - j) == d;
    forall m | 0 <= m <= n ensures t[m].now + (n - m) <= d {
      if m < n { assert t[m] == s[m] && s[m].now + (n - 1 - m) <= s[n - 1].date; }
    }
  }

  lemma ClosedFormStep(s: seq<Start>, last: int, now: int)
    requires ClosedForm(s, last) && now >= 0
    ensures ClosedForm(s + [Start(now, Later(now, last))], Later(now, last) + 1)
  {
    var t := s + [Start(now, Later(now, last))];
    StaggeredLast(s, last, now);
    forall i | 0 <= i < |t| ensures IsStaggered(t, i, t[i].date) {
      if i < |s| { StaggeredEarlier(s, t, i, s[i].date); }
    }
  }

  /** The start dates in closed form, over every run: the i-th is the maximum of now_j + (i - j). */
  lemma {:induction false} StaggeredDates(me: Addr, ops: seq<Op>)
    requires forall op :: op in ops && op.AddOp? ==> op.now >= 0
    ensures ClosedForm(Starts(me, ops), Run(me, ops).lastStart)
  {
    if ops != [] {
      var l, op := Run(me, ops[..|ops| - 1]), ops[|ops| - 1];
      StaggeredDates(me, ops[..|ops| - 1]);
      RunSound(me, ops[..|ops| - 1]);
      assert op in ops;
      LastStartStep(l, op);
      StartsStep(Starts(me, ops[..|ops| - 1]), l, op);
    }
  }

  lemma StartsStep(s: seq<Start>, l: Links, op: Op)
    requires ClosedForm(s, l.lastStart) && (op.AddOp? ==> op.now >= 0)
    ensures CreatesDial(l, op) ==>
              ClosedForm(s + [Start(op.now, Later(op.now, l.lastStart))], Later(op.now, l.lastStart) + 1)
    ensures s + [] == s
  {
    if CreatesDial(l, op) { ClosedFormStep(s, l.lastStart, op.now); }
  }

  lemma LastStartStep(l: Links, op: Op)
    requires Sound(l)
    ensures Apply(l, op).lastStart == if CreatesDial(l, op) then Later(op.now, l.lastStart) + 1 else l.lastStart
  {}

  /** So dates are at least a second apart and never in the past, and with a clock
      that does not go back the i-th is late by at most i seconds. */
  lemma StaggeredBounds(me: Addr, ops: seq<Op>, i: nat)
    requires forall op :: op in ops && op.AddOp? ==> op.now >= 0
    requires i < |Starts(me, ops)|
    ensures var s := Starts(me, ops);
            && s[i].date >= s[i].now
            && (forall k :: 0 <= k < i ==> s[k].date + (i - k) <= s[i].date)
            && ((forall j, k :: 0 <= j < k < |s| ==> s[j].now <= s[k].now) ==> s[i].date <= s[i].now + i)
  {
    StaggeredDates(me, ops);
    var s := Starts(me, ops);
    forall k | 0 <= k < i ensures s[k].date + (i - k) <= s[i].date {
      StaggeredApart(s, k, i);
    }
    StaggeredLate(s, i);
  }

  lemma StaggeredLate(s: seq<Start>, i: nat)
    requires i < |s| && IsStaggered(s, i, s[i].date)
    ensures s[i].date >= s[i].now
    ensures (forall j, k :: 0 <= j < k < |s| ==> s[j].now <= s[k].now) ==> s[i].date <= s[i].now + i
  {
    var j :| 0 <= j <= i && s[j].now + (i - j) == s[i].date;
    assert s[i].now + (i - i) <= s[i].date;
  }

  lemma StaggeredApart(s: seq<Start>, k: nat, i: nat)
    requires k < i < |s| && IsStaggered(s, k, s[k].date) && IsStaggered(s, i, s[i].date)
    ensures s[k].date + (i - k) <= s[i].date
  {
    var j :| 0 <= j <= k && s[j].now + (k - j) == s[k].date;
    assert s[j].now + (i - j) <= s[i].date;
  }

  // ---- the timers and the gossip, from the operations alone ---------------

  /** When a dialled address is tried next, and how often, in microseconds: as it was
      first dialled, with a minute between attempts; once a day from the moment it was
      added again while its connection was down; once a day if it was too busy; every
      five minutes if it was shutting down. */
  function TimerOf(me: Addr, ops: seq<Op>, a: Addr): (int, int) {
    if ops == [] then (0, 0)
    else
      var before, op := ops[..|ops| - 1], ops[|ops| - 1];
      match op
      case AddOp(b, now, connected, _) =>
        if b != a then TimerOf(me, before, a)
        else if CreatesDial(Run(me, before), op) then
          (Starts(me, ops)[|Starts(me, ops)| - 1].date * 1_000_000, 60_000_000)
        else if !connected then (now * 1_000_000, 86_400_000_000)
        else TimerOf(me, before, a)
      case BusyOp(b) => (TimerOf(me, before, a).0, if b == a then 86_400_000_000 else TimerOf(me, before, a).1)
      case DownOp(b) => (TimerOf(me, before, a).0, if b == a then 300_000_000 else TimerOf(me, before, a).1)
      case _ => TimerOf(me, before, a)
  }

  lemma TimerStep(me: Addr, before: seq<Op>, op: Op, a: Addr)
    requires Sound(Run(me, before)) && Run(me, before).me == me
    requires a in Run(me, before).smaller ==>
               var dial := Run(me, before).smaller[a];
               (dial.date, dial.delay) == TimerOf(me, before, a) && dial.enabled
    requires a in Run(me, before + [op]).smaller
    ensures var dial := Run(me, before + [op]).smaller[a];
            (dial.date, dial.delay) == TimerOf(me, before + [op], a) && dial.enabled
  {
    var ops := before + [op];
    assert ops[..|ops| - 1] == before;
    if op.AddOp? && op.a == a && CreatesDial(Run(me, before), op) {
      StartIsDate(me, ops);
    }
  }

  /** In every run each dialled address has the timer its operations ask for. */
  lemma {:induction false} TimerExactly(me: Addr, ops: seq<Op>, a: Addr)
    requires a in Run(me, ops).smaller
    ensures var dial := Run(me, ops).smaller[a];
            (dial.date, dial.delay) == TimerOf(me, ops, a) && dial.enabled
  {
    if ops != [] {
      var before := ops[..|ops| - 1];
      RunSound(me, before);
      if a in Run(me, before).smaller { TimerExactly(me, before, a); }
      assert ops == before + [ops[|ops| - 1]];
      TimerStep(me, before, ops[|ops| - 1], a);
    }
  }

  /** Adding a dialled address again while its connection is down makes the same
      connection try now, and once a day after that; while it is up, and for any
      other address that is known, adding again changes nothing. */
  lemma AddedAgain(me: Addr, ops: seq<Op>, a: Addr, now: int, connected: bool, ok: bool)
    requires a in Run(me, ops).all || a == me
    ensures var l := Run(me, ops);
            Run(me, ops + [AddOp(a, now, connected, ok)])
            == if a in l.smaller && !connected then
                 l.(smaller := l.smaller[a := Dial(l.smaller[a].handle, now * 1_000_000, 86_400_000_000, true)])
               else l
  {
    RunSound(me, ops);
    var all := ops + [AddOp(a, now, connected, ok)];
    assert all[..|all| - 1] == ops;
    AddAgain(Run(me, ops), a, now, connected, ok);
  }

  lemma AddAgain(l: Links, a: Addr, now: int, connected: bool, ok: bool)
    requires Sound(l) && (a in l.all || a == l.me)
    ensures Add(l, a, now, connected, ok)
         == if a in l.smaller && !connected then
              l.(smaller := l.smaller[a := Dial(l.smaller[a].handle, now * 1_000_000, 86_400_000_000, true)])
            else l
  {}

  /** Whether an address is being gossiped to, from the operations alone: it was last
      added for the first time, or lost, with success, and the gossip was not received,
      stopped or forgotten since. */
  ghost predicate Gossiping(me: Addr, ops: seq<Op>, a: Addr) {
    if ops == [] then false
    else
      var before, op := ops[..|ops| - 1], ops[|ops| - 1];
      match op
      case AddOp(b, _, _, ok) => Gossiping(me, before, a) || (b == a && a > me && !EverAdded(before, a) && ok)
      case LostOp(b, ok) => Gossiping(me, before, a) || (b == a && ok)
      case ReceivedOp(b) => b != a && Gossiping(me, before, a)
      case ForgetOp(b) => b != a && Gossiping(me, before, a)
      case StopOp => false
      case _ => Gossiping(me, before, a)
  }

  lemma {:induction false} GossipExactly(me: Addr, ops: seq<Op>, a: Addr)
    ensures a in Run(me, ops).gossip <==> Gossiping(me, ops, a)
  {
    if ops != [] {
      var before := ops[..|ops| - 1];
      GossipExactly(me, before, a);
      KnownExactly(me, before, a);
      RunSound(me, before);
      GossipStep(Run(me, before), ops[|ops| - 1], a);
    }
  }

  lemma GossipStep(l: Links, op: Op, a: Addr)
    requires Sound(l)
    ensures a in Apply(l, op).gossip
       <==> match op
            case AddOp(b, _, _, ok) => a in l.gossip || (b == a && a > l.me && a !in l.all && ok)
            case LostOp(b, ok) => a in l.gossip || (b == a && ok)
            case ReceivedOp(b) => b != a && a in l.gossip
            case ForgetOp(b) => b != a && a in l.gossip
            case StopOp => false
            case _ => a in l.gossip
  {}
}
