/** The table of load averages: one record per computer, kept in a file that is
    loaded, extended and saved for every LOADAVG message. */
module LoadAverageState {
  import opened Basics

  type Address = nat

  /** A floating point number as it is parsed, but for the size of its digits; minus
      infinity is refused like any negative number and has no place in a table. */
  datatype Average = Number(value: real) | Infinite | NotANumber

  /** Whether a < b: never, when one of them is not a number. */
  predicate Less(a: Average, b: Average) {
    a.Number? && (b.Infinite? || (b.Number? && a.value < b.value))
  }

  datatype Item = Item(timestamp: real, address: Address, avg: Average)

  /** A file that exists holds a readable header and a list of records. */
  type File = Option<seq<Item>>

  function IndexOf(items: seq<Item>, a: Address): (r: Option<nat>)
    ensures r.Some? ==> r.value < |items| && items[r.value].address == a
                        && forall j :: 0 <= j < r.value ==> items[j].address != a
    ensures r.None? ==> forall j :: 0 <= j < |items| ==> items[j].address != a
  {
    if items == [] then None
    else
      var front := IndexOf(items[..|items| - 1], a);
      if front.Some? then front
      else if items[|items| - 1].address == a then Some(|items| - 1)
      else None
  }

  function Add(items: seq<Item>, x: Item): seq<Item> {
    var k := IndexOf(items, x.address);
    if k.None? then items + [x]
    else items[k.value := items[k.value].(timestamp := x.timestamp, avg := x.avg)]
  }

  function Load(items: seq<Item>, file: File): seq<Item> {
    if file.None? then items else items + file.value
  }

  /** The file is not truncated: records beyond the ones written stay. */
  function Overwritten(items: seq<Item>, was: seq<Item>): (r: seq<Item>)
    ensures |r| == if |items| < |was| then |was| else |items|
  {
    items + if |items| < |was| then was[|items|..] else []
  }

  function Save(items: seq<Item>, file: File): File {
    Some(Overwritten(items, if file.None? then [] else file.value))
  }

  lemma OverwriteNext(items: seq<Item>, was: seq<Item>, i: nat)
    requires i < |items|
    ensures var written := Overwritten(items[..i], was);
            Overwritten(items[..i + 1], was)
            == if i < |written| then written[i := items[i]] else written + [items[i]]
  {
    assert items[..i + 1] == items[..i] + [items[i]];
  }

  /** The first of the least busy, among the records with a number. */
  predicate IsMinimal(items: seq<Item>, k: nat) {
    && k < |items| && !items[k].avg.NotANumber?
    && (forall j :: 0 <= j < |items| && !items[j].avg.NotANumber? ==> !Less(items[j].avg, items[k].avg))
    && (forall j :: 0 <= j < k && !items[j].avg.NotANumber? ==> Less(items[k].avg, items[j].avg))
  }

  /** The record the search finds: in first place, not a number beats everything. */
  predicate IsFound(items: seq<Item>, k: nat) {
    if items != [] && items[0].avg.NotANumber? then k == 0 else IsMinimal(items, k)
  }

  /** The search finds one record of every table that has any. */
  lemma FoundUnique(items: seq<Item>, k: nat, m: nat)
    requires IsFound(items, k) && IsFound(items, m)
    ensures k == m
  {}

  /** Among numbers the record found has the smallest, and is the first that has it. */
  lemma FoundIsSmallest(items: seq<Item>, k: nat)
    requires IsFound(items, k) && forall j :: 0 <= j < |items| ==> items[j].avg.Number?
    ensures k < |items|
    ensures forall j :: 0 <= j < |items| ==> items[k].avg.value <= items[j].avg.value
    ensures forall j :: 0 <= j < k ==> items[k].avg.value < items[j].avg.value
  {}

  /** In a table with some number the record found is a least busy one if and only
      if the first record is a number; later ones that are not do no harm. */
  lemma FoundIsLeast(items: seq<Item>, k: nat)
    requires items != [] && IsFound(items, k)
    ensures IsMinimal(items, k) <==> !items[0].avg.NotANumber?
  {}


  /** Saving and loading gives the records back exactly when the old file was not longer. */
  lemma SaveThenLoad(items: seq<Item>, file: File)
    ensures Load([], Save(items, file)) == items <==> file.None? || |file.value| <= |items|
  {}
}

module LoadAverageClass {
  import opened Basics
  import opened LoadAverageState

  class LoadavgFile {
    var items: seq<Item>

    constructor ()
      ensures items == []
    {
      items := [];
    }

    method LoadFrom(file: File) returns (ok: bool)
      modifies this
      ensures ok <==> file.Some?
      ensures items == Load(old(items), file)
    {
      if file.None? {
        return false;
      }
      var i := 0;
      while i < |file.value|
        invariant 0 <= i <= |file.value|
        invariant items == old(items) + file.value[..i]
      {
        items := items + [file.value[i]];
        i := i + 1;
      }
      return true;
    }

    method SaveTo(file: File) returns (after: File)
      ensures after == Save(items, file)
    {
      var written: seq<Item> := if file.Some? then file.value else [];
      ghost var was := written;
      var i := 0;
      while i < |items|
        invariant 0 <= i <= |items|
        invariant written == Overwritten(items[..i], was)
      {
        OverwriteNext(items, was, i);
        // a record is written over the one at its place, or appended
        written := if i < |written| then written[i := items[i]] else written + [items[i]];
        i := i + 1;
      }
      assert items[..i] == items;
      return Some(written);
    }

    method AddItem(x: Item)
      modifies this
      ensures items == Add(old(items), x)
    {
      var i := 0;
      while i < |items| && items[i].address != x.address
        invariant 0 <= i <= |items|
        invariant forall j :: 0 <= j < i ==> items[j].address != x.address
      {
        i := i + 1;
      }
      if i == |items| {
        items := items + [x];
      } else {
        items := items[i := items[i].(timestamp := x.timestamp, avg := x.avg)];
      }
    }

    /** Keeps the records that are not older than the limit; says whether any was removed. */
    method RemoveOldEntries(limit: real) returns (removed: bool)
      modifies this
      ensures items == Recent(old(items), limit)
      ensures removed <==> exists x :: x in old(items) && x.timestamp < limit
    {
      ghost var was := items;
      var kept := [];
      var i := 0;
      while i < |items|
        invariant 0 <= i <= |items| && items == was
        invariant kept == Recent(was[..i], limit)
        invariant |kept| <= i
        invariant |kept| < i <==> exists x :: x in was[..i] && x.timestamp < limit
      {
        assert was[..i + 1][..i] == was[..i];
        assert was[..i + 1] == was[..i] + [was[i]];
        if !(items[i].timestamp < limit) {
          kept := kept + [items[i]];
        } else {
          assert was[i] in was[..i + 1];
        }
        i := i + 1;
      }
      assert was[..i] == was;
      removed := |kept| != |items|;
      items := kept;
    }

    method Find(a: Address) returns (r: Option<Item>)
      ensures r == var k := IndexOf(items, a); if k.None? then None else Some(items[k.value])
    {
      var i := 0;
      while i < |items| && items[i].address != a
        invariant 0 <= i <= |items|
        invariant forall j :: 0 <= j < i ==> items[j].address != a
      {
        i := i + 1;
      }
      if i == |items| {
        return None;
      }
      return Some(items[i]);
    }

    method FindLeastBusy() returns (r: Option<Item>)
      ensures r.None? <==> items == []
      ensures r.Some? ==> exists k: nat :: k < |items| && IsFound(items, k) && items[k] == r.value
    {
      if items == [] {
        return None;
      }
      var best := 0;
      var i := 1;
      while i < |items|
        invariant 1 <= i <= |items| && 0 <= best < i
        invariant IsFound(items[..i], best)
      {
        if Less(items[i].avg, items[best].avg) {
          best := i;
        }
        i := i + 1;
      }
      assert items[..i] == items;
      return Some(items[best]);
    }
  }

  function Recent(items: seq<Item>, limit: real): seq<Item> {
    if items == [] then []
    else
      var x := items[|items| - 1];
      Recent(items[..|items| - 1], limit) + if x.timestamp < limit then [] else [x]
  }

  /** Exactly the records that are not older than the limit stay, each as often. */
  lemma {:induction false} RecentExactly(items: seq<Item>, limit: real, x: Item)
    ensures multiset(Recent(items, limit))[x] == if x.timestamp >= limit then multiset(items)[x] else 0
  {
    if items != [] {
      var front, last := items[..|items| - 1], items[|items| - 1];
      RecentExactly(front, limit, x);
      assert items == front + [last];
    }
  }

  /** And they stay in their order. */
  lemma {:induction false} RecentInOrder(a: seq<Item>, b: seq<Item>, limit: real)
    ensures Recent(a + b, limit) == Recent(a, limit) + Recent(b, limit)
  {
    if b == [] {
      assert a + b == a;
    } else {
      RecentInOrder(a, b[..|b| - 1], limit);
      assert (a + b)[..|a + b| - 1] == a + b[..|b| - 1];
    }
  }

  /** One LOADAVG message: refused unless the average is not negative and the
      time is not before the year of the build. */
  method SaveLoadavg(x: Item, oldest: real, file: File) returns (after: File)
    ensures after == if Less(x.avg, Number(0.0)) || x.timestamp < oldest then file
                     else Save(Add(Load([], file), x), file)
  {
    if Less(x.avg, Number(0.0)) {
      return file;
    }
    if x.timestamp < oldest {
      return file;
    }
    var table := new LoadavgFile();
    var _ := table.LoadFrom(file);
    table.AddItem(x);
    after := table.SaveTo(file);
  }
}

/** The file after any sequence of LOADAVG messages, starting from no file. */
module LoadAverageRuns {
  import opened Basics
  import opened LoadAverageState

  predicate Taken(x: Item, oldest: real) {
    !(Less(x.avg, Number(0.0)) || x.timestamp < oldest)
  }

  function Process(file: File, x: Item, oldest: real): File {
    if Taken(x, oldest) then Save(Add(Load([], file), x), file) else file
  }

  function FileAfter(reports: seq<Item>, oldest: real): File {
    if reports == [] then None
    else Process(FileAfter(reports[..|reports| - 1], oldest), reports[|reports| - 1], oldest)
  }

  function Records(file: File): seq<Item> {
    if file.None? then [] else file.value
  }

  // what the file should hold, from the reports alone

  /** The last report taken from an address. */
  function Latest(reports: seq<Item>, oldest: real, a: Address): Option<Item> {
    if reports == [] then None
    else
      var x := reports[|reports| - 1];
      if Taken(x, oldest) && x.address == a then Some(x) else Latest(reports[..|reports| - 1], oldest, a)
  }

  /** The addresses in the order of their first report taken. */
  function Order(reports: seq<Item>, oldest: real): seq<Address> {
    if reports == [] then []
    else
      var front, x := Order(reports[..|reports| - 1], oldest), reports[|reports| - 1];
      if Taken(x, oldest) && x.address !in front then front + [x.address] else front
  }

  /** The table: in order of first report, each address once, with its last report. */
  ghost predicate IsTable(records: seq<Item>, reports: seq<Item>, oldest: real) {
    && |records| == |Order(reports, oldest)|
    && (forall i :: 0 <= i < |records| ==>
          && records[i].address == Order(reports, oldest)[i]
          && Latest(reports, oldest, records[i].address) == Some(records[i]))
    && (forall i, j :: 0 <= i < j < |records| ==> records[i].address != records[j].address)
  }

  ghost predicate Distinct(o: seq<Address>) {
    forall i, j :: 0 <= i < j < |o| ==> o[i] != o[j]
  }

  lemma {:induction false} OrderMeaning(reports: seq<Item>, oldest: real)
    ensures var o := Order(reports, oldest);
            && Distinct(o)
            && (forall a :: a in o <==> Latest(reports, oldest, a).Some?)
  {
    if reports != [] {
      var front := Order(reports[..|reports| - 1], oldest);
      OrderMeaning(reports[..|reports| - 1], oldest);
      var o := Order(reports, oldest);
      forall i, j | 0 <= i < j < |o| ensures o[i] != o[j] {
        assert o[i] == front[i] && front[i] in front;
        if j < |front| { assert front[i] != front[j]; }
      }
    }
  }

  lemma AddToTable(records: seq<Item>, reports: seq<Item>, oldest: real, x: Item)
    requires IsTable(records, reports, oldest) && Taken(x, oldest)
    ensures IsTable(Add(records, x), reports + [x], oldest)
    ensures |records| <= |Add(records, x)|
  {
    var all := reports + [x];
    assert all[..|all| - 1] == reports;
    OrderMeaning(reports, oldest);
    var k := IndexOf(records, x.address);
    var o := Order(reports, oldest);
    if k.Some? {
      assert o[k.value] == x.address;
    } else {
      forall i | 0 <= i < |o| ensures o[i] != x.address { assert records[i].address == o[i]; }
    }
  }

  lemma NotTaken(reports: seq<Item>, x: Item, oldest: real)
    requires !Taken(x, oldest)
    ensures Order(reports + [x], oldest) == Order(reports, oldest)
    ensures forall a :: Latest(reports + [x], oldest, a) == Latest(reports, oldest, a)
  {
    assert (reports + [x])[..|reports|] == reports;
  }

  lemma ProcessTable(file: File, reports: seq<Item>, x: Item, oldest: real)
    requires IsTable(Records(file), reports, oldest)
    ensures IsTable(Records(Process(file, x, oldest)), reports + [x], oldest)
  {
    if Taken(x, oldest) {
      AddToTable(Records(file), reports, oldest, x);
      assert Load([], file) == Records(file);
      assert Records(Process(file, x, oldest)) == Add(Records(file), x);
    } else {
      NotTaken(reports, x, oldest);
    }
  }

  /** Over every sequence of messages the file is that table. */
  lemma {:induction false} FileIsTable(reports: seq<Item>, oldest: real)
    ensures IsTable(Records(FileAfter(reports, oldest)), reports, oldest)
  {
    if reports != [] {
      var before := reports[..|reports| - 1];
      FileIsTable(before, oldest);
      ProcessTable(FileAfter(before, oldest), before, reports[|reports| - 1], oldest);
      assert before + [reports[|reports| - 1]] == reports;
    }
  }

  /** So a search by address finds the last report taken from it, or nothing. */
  lemma FindIsLatest(reports: seq<Item>, oldest: real, a: Address)
    ensures var records := Records(FileAfter(reports, oldest));
            var k := IndexOf(records, a);
            (if k.None? then None else Some(records[k.value])) == Latest(reports, oldest, a)
  {
    FileIsTable(reports, oldest);
    OrderMeaning(reports, oldest);
    var records, o := Records(FileAfter(reports, oldest)), Order(reports, oldest);
    if IndexOf(records, a).None? {
      forall i | 0 <= i < |o| ensures o[i] != a { assert records[i].address == o[i]; }
    }
  }

  /** No address reported a lower number last. */
  ghost predicate NoneLower(reports: seq<Item>, oldest: real, x: Item) {
    forall a :: Latest(reports, oldest, a).Some? ==> !Less(Latest(reports, oldest, a).value.avg, x.avg)
  }

  /** The record the search finds is the last report of its address.  When some
      address reported a number last, the record found is a number that no last
      report undercuts if and only if the address that reported first of all did
      not report "nan" last. */
  lemma LeastBusyIsLeast(reports: seq<Item>, oldest: real, k: nat, some: Address)
    requires var records := Records(FileAfter(reports, oldest)); k < |records| && IsFound(records, k)
    requires Latest(reports, oldest, some).Some? && !Latest(reports, oldest, some).value.avg.NotANumber?
    ensures var x := Records(FileAfter(reports, oldest))[k];
            var o := Order(reports, oldest);
            && Latest(reports, oldest, x.address) == Some(x)
            && o != [] && Latest(reports, oldest, o[0]).Some?
            && (!x.avg.NotANumber? && NoneLower(reports, oldest, x)
                <==> !Latest(reports, oldest, o[0]).value.avg.NotANumber?)
  {
    FileIsTable(reports, oldest);
    OrderMeaning(reports, oldest);
    var records, o := Records(FileAfter(reports, oldest)), Order(reports, oldest);
    assert records[0].address == o[0] && Latest(reports, oldest, o[0]) == Some(records[0]);
    forall a | Latest(reports, oldest, a).Some?
      ensures exists j :: 0 <= j < |records| && Some(records[j]) == Latest(reports, oldest, a)
    {
      var j :| 0 <= j < |o| && o[j] == a;
      assert records[j].address == a;
    }
  }

  /** A first report of "nan" is what the search finds, whatever the others report. */
  lemma NanIsFound(t: real, idle: Average)
    requires !Less(idle, Number(0.0))
    ensures var reports := [Item(t, 1, NotANumber), Item(t, 2, idle)];
            var records := Records(FileAfter(reports, t));
            records == reports && IsFound(records, 0)
  {
    var x, y := Item(t, 1, NotANumber), Item(t, 2, idle);
    assert [x, y][..1] == [x] && [x][..0] == [];
    assert FileAfter([x], t) == Process(None, x, t);
    assert IndexOf([], 1).None? && Add([], x) == [x] && Overwritten([x], []) == [x];
    assert FileAfter([x], t) == Some([x]);
    assert IndexOf([x], 2).None? && Add([x], y) == [x, y] && Load([], Some([x])) == [x];
    assert Overwritten([x, y], [x]) == [x, y];
  }

  /** What becomes of a report: a negative or too old one changes nothing; any other,
      "nan" included, is what the file then holds for its address, and for no other. */
  lemma ReportExactly(reports: seq<Item>, oldest: real, x: Item, a: Address)
    ensures var was, now := Records(FileAfter(reports, oldest)), Records(FileAfter(reports + [x], oldest));
            var refused := (x.avg.Number? && x.avg.value < 0.0) || x.timestamp < oldest;
            var i, j := IndexOf(was, a), IndexOf(now, a);
            && (refused ==> now == was)
            && (!refused && a == x.address ==> j.Some? && now[j.value] == x)
            && (a != x.address ==> i.Some? == j.Some? && (i.Some? ==> now[j.value] == was[i.value]))
  {
    assert (reports + [x])[..|reports + [x]| - 1] == reports;
    FindIsLatest(reports, oldest, a);
    FindIsLatest(reports + [x], oldest, a);
  }
}
