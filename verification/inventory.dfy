/** The table inventory and the first-fit seating rule shared by both brokers. */
module Inventory {
  import Config

  datatype Option<T> = None | Some(value: T)

  /** One table record. `tag` is the size of the group occupying the table;
      only groups of that same size may share it. */
  datatype Table = Table(id: int, capacity: int, used: int, tag: Option<int>)

  // ---------------------------------------------------------------------
  // Building the inventory
  // ---------------------------------------------------------------------

  /** `count` empty, untagged tables of one capacity with consecutive ids. */
  function TableRun(capacity: int, count: nat, firstId: int): seq<Table> {
    seq(count, k => Table(firstId + k, capacity, 0, None))
  }

  /** Number of tables a configuration describes. */
  function Total(counts: seq<(int, nat)>): nat {
    if counts == [] then 0 else counts[0].1 + Total(counts[1..])
  }

  /** Reference layout: the runs of each configured capacity, in configuration order,
      with ids counted up from `firstId`. */
  function Layout(counts: seq<(int, nat)>, firstId: int): seq<Table>
    decreases |counts|
  {
    if counts == [] then []
    else TableRun(counts[0].0, counts[0].1, firstId) + Layout(counts[1..], firstId + counts[0].1)
  }

  /** The inventory the brokers start with and rebuild on reopening. */
  function InitialTables(): seq<Table> {
    Layout(Config.TableCounts, 1)
  }

  /** A fresh layout has one table per configured seat group, ids consecutive
      from `firstId`, every table empty and untagged. */
  lemma {:induction false} LayoutFresh(counts: seq<(int, nat)>, firstId: int)
    ensures |Layout(counts, firstId)| == Total(counts)
    ensures forall i :: 0 <= i < |Layout(counts, firstId)| ==>
      Layout(counts, firstId)[i].id == firstId + i &&
      Layout(counts, firstId)[i].used == 0 &&
      Layout(counts, firstId)[i].tag == None
  {
    if counts != [] {
      LayoutFresh(counts[1..], firstId + counts[0].1);
    }
  }

  /** The configured inventory, written out: ids 1..8, two tables of each capacity 1..4. */
  lemma InitialTablesExplicit()
    ensures InitialTables() == [
      Table(1, 1, 0, None), Table(2, 1, 0, None),
      Table(3, 2, 0, None), Table(4, 2, 0, None),
      Table(5, 3, 0, None), Table(6, 3, 0, None),
      Table(7, 4, 0, None), Table(8, 4, 0, None)]
  {
    var c: seq<(int, nat)> := Config.TableCounts;
    assert |c[1..][1..][1..][1..]| == 0;
    assert Layout(c[1..][1..][1..], 7) == TableRun(4, 2, 7);
    assert Layout(c[1..][1..], 5) == TableRun(3, 2, 5) + TableRun(4, 2, 7);
    assert Layout(c[1..], 3) == TableRun(2, 2, 3) + TableRun(3, 2, 5) + TableRun(4, 2, 7);
  }

  /** The usage counters' keys are exactly the configured capacities. */
  lemma TableSizesAreCapacities()
    ensures Config.TableSizes == set p | p in Config.TableCounts :: p.0
  {
    var caps := set p | p in Config.TableCounts :: p.0;
    assert (1, 2) in Config.TableCounts && (2, 2) in Config.TableCounts;
    assert (3, 2) in Config.TableCounts && (4, 2) in Config.TableCounts;
    assert {1, 2, 3, 4} <= caps;
  }

  /** The inventory is grouped by capacity, smallest first, so index order is the
      order in which the source scans (ascending capacity, then creation order). */
  lemma InitialTablesShape()
    ensures |InitialTables()| == 8
    ensures forall i :: 0 <= i < 8 ==> InitialTables()[i].id == i + 1
    ensures forall i :: 0 <= i < 8 ==> InitialTables()[i].capacity == i / 2 + 1
    ensures CapacitySorted(InitialTables())
    ensures UniqueIds(InitialTables())
    ensures AllConsistent(InitialTables())
  {
    InitialTablesExplicit();
  }

  /** The table-building loop: capacities in configuration order, a running id counter. */
  method BuildTables(counts: seq<(int, nat)>) returns (tables: seq<Table>)
    ensures tables == Layout(counts, 1)
  {
    tables := [];
    var nextId := 1;
    var k := 0;
    while k < |counts|
      invariant 0 <= k <= |counts|
      invariant tables + Layout(counts[k..], nextId) == Layout(counts, 1)
    {
      var size, count := counts[k].0, counts[k].1;
      ghost var before, firstId := tables, nextId;
      var j := 0;
      while j < count
        invariant 0 <= j <= count
        invariant nextId == firstId + j
        invariant tables == before + TableRun(size, j, firstId)
      {
        var t := Table(nextId, size, 0, None);
        RunGrows(size, j, firstId);
        Append(before, TableRun(size, j, firstId), [t]);
        tables := tables + [t];
        nextId := nextId + 1;
        j := j + 1;
      }
      LayoutStep(counts, k, firstId);
      Append(before, TableRun(size, count, firstId), Layout(counts[k + 1..], nextId));
      k := k + 1;
    }
    assert counts[k..] == [];
  }

  /** Sequence concatenation is associative. */
  lemma Append<T>(x: seq<T>, y: seq<T>, z: seq<T>)
    ensures x + y + z == x + (y + z)
  {
  }

  lemma RunGrows(capacity: int, count: nat, firstId: int)
    ensures TableRun(capacity, count + 1, firstId)
         == TableRun(capacity, count, firstId) + [Table(firstId + count, capacity, 0, None)]
  {
  }

  lemma LayoutStep(counts: seq<(int, nat)>, k: nat, firstId: int)
    requires k < |counts|
    ensures Layout(counts[k..], firstId)
         == TableRun(counts[k].0, counts[k].1, firstId) + Layout(counts[k + 1..], firstId + counts[k].1)
  {
    assert counts[k..][1..] == counts[k + 1..];
  }

  // ---------------------------------------------------------------------
  // Table invariants
  // ---------------------------------------------------------------------

  /** Seats in use lie within capacity, and the table is tagged exactly when occupied.
      A tag, when present, is a real group size of at least one person: a table is only
      ever tagged by the group that sits at it, and seating rejects nothing smaller. */
  predicate Consistent(t: Table) {
    0 <= t.used <= t.capacity &&
    (t.tag == None <==> t.used == 0) &&
    (t.tag.Some? ==> t.tag.value >= 1)
  }

  predicate AllConsistent(ts: seq<Table>) {
    forall i :: 0 <= i < |ts| ==> Consistent(ts[i])
  }

  predicate UniqueIds(ts: seq<Table>) {
    forall i, j :: 0 <= i < j < |ts| ==> ts[i].id != ts[j].id
  }

  predicate CapacitySorted(ts: seq<Table>) {
    forall i, j :: 0 <= i < j < |ts| ==> ts[i].capacity <= ts[j].capacity
  }

  /** Same ids and capacities at every position: seating and releasing never
      change which tables exist. */
  predicate SameShape(ts: seq<Table>, us: seq<Table>) {
    |ts| == |us| &&
    forall i :: 0 <= i < |ts| ==> ts[i].id == us[i].id && ts[i].capacity == us[i].capacity
  }

  // ---------------------------------------------------------------------
  // First-fit seating
  // ---------------------------------------------------------------------

  /** A table accepts a group of size g when it is large enough, it is untagged or
      tagged with g, and it has at least g free seats. */
  predicate Fits(t: Table, g: int) {
    t.capacity >= g &&
    (t.tag == None || t.tag == Some(g)) &&
    t.capacity - t.used >= g
  }

  /** Index of the first table that accepts a group of size g, if any. */
  function FirstFit(ts: seq<Table>, g: int): (r: Option<nat>)
    ensures r.Some? ==> r.value < |ts| && Fits(ts[r.value], g)
    ensures r.Some? ==> forall j :: 0 <= j < r.value ==> !Fits(ts[j], g)
    ensures r.None? ==> forall j :: 0 <= j < |ts| ==> !Fits(ts[j], g)
    decreases |ts|
  {
    if ts == [] then None
    else if Fits(ts[0], g) then Some(0)
    else match FirstFit(ts[1..], g)
      case None => None
      case Some(i) => Some(i + 1)
  }

  /** The table after a group of size g sits down at it. */
  function Occupy(t: Table, g: int): Table {
    t.(used := t.used + g, tag := if t.tag == None then Some(g) else t.tag)
  }

  /** The inventory after seating a group of size g (unchanged when nothing fits). */
  function SeatTables(ts: seq<Table>, g: int): seq<Table> {
    match FirstFit(ts, g)
    case None => ts
    case Some(i) => ts[i := Occupy(ts[i], g)]
  }

  /** Seating changes at most the chosen table: its seats grow by exactly g and stay
      within capacity, it becomes tagged with g if it was untagged, and no table
      tagged with another size is chosen. With no fitting table nothing changes. */
  lemma SeatEffect(ts: seq<Table>, g: int)
    ensures SameShape(SeatTables(ts, g), ts)
    ensures FirstFit(ts, g).None? ==> SeatTables(ts, g) == ts
    ensures FirstFit(ts, g).Some? ==>
      var i := FirstFit(ts, g).value;
      var t, t' := ts[i], SeatTables(ts, g)[i];
      t.capacity >= g && t.tag in {None, Some(g)} &&
      t'.used == t.used + g && t'.used <= t'.capacity && t'.tag == Some(g) &&
      forall j :: 0 <= j < |ts| && j != i ==> SeatTables(ts, g)[j] == ts[j]
  {
  }

  /** First-fit order: the chosen table has the smallest capacity of all tables that
      accept the group, and among those of that capacity it is the earliest; a later,
      tighter table is never preferred. */
  lemma FirstFitOrder(ts: seq<Table>, g: int)
    requires CapacitySorted(ts)
    ensures FirstFit(ts, g).Some? ==>
      var i := FirstFit(ts, g).value;
      forall j :: 0 <= j < |ts| && Fits(ts[j], g) ==>
        ts[i].capacity <= ts[j].capacity && (ts[j].capacity == ts[i].capacity ==> i <= j)
  {
  }

  /** A group larger than every capacity is never seated. */
  lemma OversizeNeverFits(ts: seq<Table>, g: int)
    requires forall j :: 0 <= j < |ts| ==> ts[j].capacity < g
    ensures FirstFit(ts, g) == None
    ensures SeatTables(ts, g) == ts
  {
  }

  /** Seating a group of at least one person keeps every table consistent. */
  lemma SeatKeepsConsistent(ts: seq<Table>, g: int)
    requires AllConsistent(ts) && g >= 1
    ensures AllConsistent(SeatTables(ts, g))
  {
    match FirstFit(ts, g)
    case None =>
    case Some(i) =>
      var t' := Occupy(ts[i], g);
      assert Consistent(t');
      forall j | 0 <= j < |ts| ensures Consistent(SeatTables(ts, g)[j]) {
        if j != i { assert SeatTables(ts, g)[j] == ts[j]; }
      }
  }

  /** A group of size 0 is never range-checked: it tags an empty table without
      occupying a seat, breaking the tag invariant. */
  lemma ZeroGroupTagsEmptyTable()
    ensures var ts := [Table(1, 1, 0, None)];
      AllConsistent(ts) &&
      SeatTables(ts, 0) == [Table(1, 1, 0, Some(0))] &&
      !AllConsistent(SeatTables(ts, 0))
  {
    var ts := [Table(1, 1, 0, None)];
    assert Fits(ts[0], 0);
    assert !Consistent(SeatTables(ts, 0)[0]);
  }

  // ---------------------------------------------------------------------
  // Locating a table by id
  // ---------------------------------------------------------------------

  /** Index of the first table with the given id, if any. */
  function IndexOfId(ts: seq<Table>, id: int): (r: Option<nat>)
    ensures r.Some? ==> r.value < |ts| && ts[r.value].id == id
    ensures r.Some? ==> forall j :: 0 <= j < r.value ==> ts[j].id != id
    ensures r.None? ==> forall j :: 0 <= j < |ts| ==> ts[j].id != id
    decreases |ts|
  {
    if ts == [] then None
    else if ts[0].id == id then Some(0)
    else match IndexOfId(ts[1..], id)
      case None => None
      case Some(i) => Some(i + 1)
  }

  /** With unique ids, the table at position i is the one found by its id. */
  lemma IndexOfOwnId(ts: seq<Table>, i: nat)
    requires UniqueIds(ts) && i < |ts|
    ensures IndexOfId(ts, ts[i].id) == Some(i)
  {
  }
}
