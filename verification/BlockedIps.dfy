/** The count of bad credentials per address, and when an address is blocked
    (communicator/daemon/service_connection.cpp). */
module BlockedIps {

  /** The remote address with its port set to zero. */
  type Address = nat

  datatype Hits = Hits(count: int, last: int)

  datatype Hit = Hit(address: Address, at: int)

  const WINDOW := 60 * 15
  const LIMIT := 3

  // ---- the history of one address -----------------------------------------

  function HitsOf(history: seq<Hit>, a: Address): seq<int> {
    if history == [] then []
    else
      var h := history[|history| - 1];
      HitsOf(history[..|history| - 1], a) + if h.address == a then [h.at] else []
  }

  /** The last n times are each within the window of the one before. */
  ghost predicate CloseTail(times: seq<int>, n: nat)
    requires n <= |times|
  {
    forall i :: |times| - n < i < |times| ==> times[i] - times[i - 1] <= 900
  }

  /** n is the length of the longest close tail. */
  ghost predicate IsStreak(times: seq<int>, n: nat) {
    && n <= |times|
    && CloseTail(times, n)
    && forall m :: n < m <= |times| ==> !CloseTail(times, m)
  }

  lemma StreakUnique(times: seq<int>, m: nat, n: nat)
    requires IsStreak(times, m) && IsStreak(times, n)
    ensures m == n
  {}

  // ---- one hit ------------------------------------------------------------

  function Next(table: map<Address, Hits>, h: Hit): map<Address, Hits> {
    if h.address !in table then table[h.address := Hits(1, h.at)]
    else
      var prior := table[h.address];
      table[h.address := Hits(if prior.last + WINDOW < h.at then 1 else prior.count + 1, h.at)]
  }

  function Table(history: seq<Hit>): map<Address, Hits> {
    if history == [] then map[] else Next(Table(history[..|history| - 1]), history[|history| - 1])
  }

  class BlockList {
    var blocked: map<Address, Hits>
    var blocks: seq<Address>   // the BLOCK messages that were broadcast

    constructor ()
      ensures blocked == map[] && blocks == []
    {
      blocked, blocks := map[], [];
    }

    method BlockIp(a: Address, now: int)
      modifies this
      ensures blocked == Next(old(blocked), Hit(a, now))
      ensures blocks == old(blocks) + if blocked[a].count >= LIMIT then [a] else []
    {
      var r := 1;
      if a !in blocked {
        blocked := blocked[a := Hits(1, now)];
      } else {
        var hits := blocked[a];
        if hits.last + 60 * 15 < now {
          hits := hits.(count := 1);
        } else {
          hits := hits.(count := hits.count + 1);
          r := hits.count;
        }
        hits := hits.(last := now);
        blocked := blocked[a := hits];
      }
      if r >= 3 {
        blocks := blocks + [a];
      }
    }
  }

  // ---- the counter summarises the history ---------------------------------

  function Blocks(history: seq<Hit>): seq<Address> {
    if history == [] then []
    else
      var a := history[|history| - 1].address;
      Blocks(history[..|history| - 1]) + if a in Table(history) && Table(history)[a].count >= LIMIT then [a] else []
  }

  lemma StreakStep(times: seq<int>, n: nat, at: int)
    requires times != [] && IsStreak(times, n)
    ensures IsStreak(times + [at], if times[|times| - 1] + WINDOW < at then 1 else n + 1)
  {
    if times[|times| - 1] + WINDOW < at {
      StreakStarts(times, at);
    } else {
      StreakGrows(times, n, at);
    }
  }

  lemma StreakStarts(times: seq<int>, at: int)
    requires times != [] && times[|times| - 1] + WINDOW < at
    ensures IsStreak(times + [at], 1)
  {
    var t := times + [at];
    forall m | 1 < m <= |t| ensures !CloseTail(t, m) {
      assert t[|t| - 1] - t[|t| - 2] > WINDOW;
    }
  }

  lemma StreakGrows(times: seq<int>, n: nat, at: int)
    requires times != [] && IsStreak(times, n) && at <= times[|times| - 1] + WINDOW
    ensures IsStreak(times + [at], n + 1)
  {
    var t := times + [at];
    forall i | |t| - (n + 1) < i < |t| ensures t[i] - t[i - 1] <= WINDOW {
      if i < |times| { assert t[i] == times[i] && t[i - 1] == times[i - 1]; }
    }
    forall m | n + 1 < m <= |t| ensures !CloseTail(t, m) {
      if CloseTail(t, m) { LongerTail(times, at, m); }
    }
  }

  lemma LongerTail(times: seq<int>, at: int, m: nat)
    requires 1 <= m <= |times| + 1 && CloseTail(times + [at], m)
    ensures CloseTail(times, m - 1)
  {
    var t := times + [at];
    forall i | |times| - (m - 1) < i < |times| ensures times[i] - times[i - 1] <= WINDOW {
      assert t[i] == times[i] && t[i - 1] == times[i - 1];
    }
  }

  /** For every history: an address is in the table if it was hit, with its last
      hit and the length of its longest run of hits no more than the window apart. */
  lemma {:induction false} CountIsStreak(history: seq<Hit>, a: Address)
    ensures a in Table(history) <==> HitsOf(history, a) != []
    ensures a in Table(history) ==>
              var times, hits := HitsOf(history, a), Table(history)[a];
              hits.count >= 1 && hits.last == times[|times| - 1] && IsStreak(times, hits.count)
  {
    if history != [] {
      var before, h := history[..|history| - 1], history[|history| - 1];
      CountIsStreak(before, a);
      if h.address == a {
        var times := HitsOf(before, a);
        if times != [] {
          StreakStep(times, Table(before)[a].count, h.at);
        } else {
          assert times + [h.at] == [h.at];
        }
      } else {
        assert HitsOf(history, a) == HitsOf(before, a);
      }
    }
  }

  /** A hit broadcasts a BLOCK exactly when it is at least the third of such a run. */
  lemma BlockExactly(history: seq<Hit>, h: Hit, n: nat)
    requires IsStreak(HitsOf(history + [h], h.address), n)
    ensures Blocks(history + [h]) == Blocks(history) + if n >= 3 then [h.address] else []
  {
    var all := history + [h];
    assert all[..|all| - 1] == history;
    CountIsStreak(all, h.address);
    assert HitsOf(all, h.address) != [];
    StreakUnique(HitsOf(all, h.address), n, Table(all)[h.address].count);
  }
}
