/** The FIFO-based broker: seats groups first-fit, releases seats with a clamp at zero,
    closes while the fire flag is set and rebuilds the inventory when it clears, and
    keeps accepted/rejected/table-usage counters and a profit total. */
module FifoBroker {
  import opened Inventory
  import opened Wire
  import Config

  // ---------------------------------------------------------------------
  // Releasing seats
  // ---------------------------------------------------------------------

  /** The table after k seats are given back: clamped at zero, untagged once empty. */
  function Vacate(t: Table, k: int): Table {
    var left := if t.used - k < 0 then 0 else t.used - k;
    t.(used := left, tag := if left == 0 then None else t.tag)
  }

  /** The inventory after CUSTOMER_DONE{k, id}: the table with that id is vacated,
      an unknown id changes nothing. */
  function ReleaseTables(ts: seq<Table>, k: int, id: int): seq<Table> {
    match IndexOfId(ts, id)
    case None => ts
    case Some(i) => ts[i := Vacate(ts[i], k)]
  }

  /** Releasing subtracts k from the named table and clamps at 0, clears the tag exactly
      when the count reaches 0, and touches no other table; an unknown id changes nothing. */
  lemma ReleaseEffect(ts: seq<Table>, k: int, id: int)
    ensures SameShape(ReleaseTables(ts, k, id), ts)
    ensures (forall j :: 0 <= j < |ts| ==> ts[j].id != id) ==> ReleaseTables(ts, k, id) == ts
    ensures forall j :: 0 <= j < |ts| && ts[j].id != id ==> ReleaseTables(ts, k, id)[j] == ts[j]
    ensures forall j :: 0 <= j < |ts| && ts[j].id == id && IndexOfId(ts, id) == Some(j) ==>
      var t, t' := ts[j], ReleaseTables(ts, k, id)[j];
      t'.used == (if t.used - k < 0 then 0 else t.used - k) &&
      (t'.used == 0 ==> t'.tag == None) &&
      (t'.used != 0 ==> t'.tag == t.tag)
  {
  }

  /** Releasing a non-negative number of seats keeps every table consistent. */
  lemma ReleaseKeepsConsistent(ts: seq<Table>, k: int, id: int)
    requires AllConsistent(ts) && k >= 0
    ensures AllConsistent(ReleaseTables(ts, k, id))
  {
    match IndexOfId(ts, id)
    case None =>
    case Some(i) =>
      assert Consistent(Vacate(ts[i], k));
      forall j | 0 <= j < |ts| ensures Consistent(ReleaseTables(ts, k, id)[j]) {
        if j != i { assert ReleaseTables(ts, k, id)[j] == ts[j]; }
      }
  }

  /** Seating a group of size g and then releasing g seats at the table it was given
      restores the inventory exactly. */
  lemma SeatReleaseRoundTrip(ts: seq<Table>, g: int)
    requires AllConsistent(ts) && UniqueIds(ts)
    requires FirstFit(ts, g).Some?
    ensures ReleaseTables(SeatTables(ts, g), g, ts[FirstFit(ts, g).value].id) == ts
  {
    var i := FirstFit(ts, g).value;
    var seated := SeatTables(ts, g);
    assert seated == ts[i := Occupy(ts[i], g)];
    assert UniqueIds(seated) by {
      forall a, b | 0 <= a < b < |seated| ensures seated[a].id != seated[b].id {
        assert seated[a].id == ts[a].id && seated[b].id == ts[b].id;
      }
    }
    IndexOfOwnId(seated, i);
    assert Vacate(seated[i], g) == ts[i];
  }

  // ---------------------------------------------------------------------
  // Broker state and one message
  // ---------------------------------------------------------------------

  /** What handling one record leads to: carry on (possibly with a reply for a customer's
      FIFO), leave the loop because the fire flag was seen after a seating decision, or
      leave it through an exception. */
  datatype Outcome =
    | Continue(reply: Option<(string, Reply)>)
    | Stop
    | Crash

  /** Everything the broker loop updates. */
  datatype State = State(
    tables: seq<Table>,
    open: bool,
    accepted: map<int, int>,
    rejected: map<int, int>,
    usage: map<int, int>,
    profit: int)

  /** Counters for a set of keys, all zero. */
  function Zeros(keys: set<int>): (m: map<int, int>)
    ensures m.Keys == keys && forall k :: k in keys ==> m[k] == 0
  {
    map k | k in keys :: 0
  }

  function InitialState(): State {
    State(InitialTables(), true, Zeros(Config.CountedGroupSizes), Zeros(Config.CountedGroupSizes),
          Zeros(Config.TableSizes), 0)
  }

  /** The tables are the configured ones (ids and capacities) and every counter map has
      exactly its configured keys. */
  ghost predicate WellFormed(s: State) {
    SameShape(s.tables, InitialTables()) &&
    s.accepted.Keys == Config.CountedGroupSizes &&
    s.rejected.Keys == Config.CountedGroupSizes &&
    s.usage.Keys == Config.TableSizes
  }

  /** Add one to a counter whose key is tracked; other sizes are not counted. */
  function Bump(m: map<int, int>, k: int): map<int, int> {
    if k in m then m[k := m[k] + 1] else m
  }

  /** The fire check at the top of each iteration: a set flag closes the broker. */
  function FireCheck(s: State, fire: bool): State {
    if fire then s.(open := false) else s
  }

  /** The reopen check: when the flag is clear and the broker is closed, the inventory
      is rebuilt from scratch and the broker opens. Counters and profit carry over. */
  function ClearCheck(s: State, fire: bool): State {
    if !fire && !s.open then s.(tables := InitialTables(), open := true) else s
  }

  /** Handle one parsed record. `fire` is the flag as read after a seating decision;
      `price` is the per-person price drawn for a seated group. */
  function Handle(s: State, rec: Record, fire: bool, price: int): (State, Outcome) {
    match rec
    case Message(to, RequestSeat(g, customer)) => Answer(s, to, g, customer, fire, price)
    case Message(_, CustomerDone(k, id)) =>
      (s.(tables := ReleaseTables(s.tables, k, id)), Continue(None))
    case Message(_, UnknownVerb(_)) => (s, Continue(None))
    case BadNumber => (s, Crash)
    case Blank => (s, Continue(None))
    case NoAddress => (s, Continue(None))
    case Incomplete => (s, Continue(None))
  }

  /** REQUEST_SEAT from `to`: LEAVE while closed, otherwise seat first-fit or reject. */
  function Answer(s: State, to: string, g: int, customer: string, fire: bool, price: int): (State, Outcome) {
    if !s.open then (s, Continue(Some((to, Leave(g, customer)))))
    else if FirstFit(s.tables, g).Some? then SeatAt(s, to, g, FirstFit(s.tables, g).value, fire, price)
    else
      var s1 := s.(rejected := Bump(s.rejected, g));
      if fire then (s1, Stop) else (s1, Continue(Some((to, Rejected(g, customer)))))
  }

  /** Seat the group at table index i: count it, charge it, and answer SEATED. A
      capacity without a usage counter raises a KeyError; a group profit or a total
      too long for str() makes the log line raise ValueError after the counters moved. */
  function SeatAt(s: State, to: string, g: int, i: nat, fire: bool, price: int): (State, Outcome)
    requires i < |s.tables|
  {
    var ts := SeatTables(s.tables, g);
    var cap := s.tables[i].capacity;
    var s1 := s.(tables := ts, profit := s.profit + g * price, accepted := Bump(s.accepted, g));
    if cap !in s.usage then (s1, Crash)
    else
      var s2 := s1.(usage := s.usage[cap := s.usage[cap] + 1]);
      (s2, SeatedOutcome(s, to, g, s.tables[i].id, fire, price))
  }

  /** The environment's inputs to one loop iteration: the fire flag at each point the
      loop reads it, the line read from the inbound FIFO ("" when nothing was there),
      and the random per-person price. */
  datatype Tick = Tick(fireAtTop: bool, fireAtReopen: bool, line: string, fireAtReply: bool, price: int)

  /** One iteration of the broker loop. */
  function Iteration(s: State, t: Tick): (State, Outcome) {
    Handle(ClearCheck(FireCheck(s, t.fireAtTop), t.fireAtReopen), ParseRecord(t.line), t.fireAtReply, t.price)
  }

  /** How the broker loop ended. */
  datatype Exit = ClosedByEvent | BrokeOnFire | Failed

  function ReplyOf(o: Outcome): seq<(string, Reply)> {
    if o.Continue? && o.reply.Some? then [o.reply.value] else []
  }

  /** Iterations over the given inputs until one ends the loop or the inputs run out
      (the close event); `sent` accumulates the replies. */
  function Run(s: State, ticks: seq<Tick>, sent: seq<(string, Reply)>): (State, seq<(string, Reply)>, Exit)
    decreases |ticks|, 1
  {
    if ticks == [] then (s, sent, ClosedByEvent)
    else After(Iteration(s, ticks[0]), ticks[1..], sent)
  }

  /** The loop after an iteration produced `step`: stop, or go on with the remaining inputs. */
  function After(step: (State, Outcome), rest: seq<Tick>, sent: seq<(string, Reply)>): (State, seq<(string, Reply)>, Exit)
    decreases |rest| + 1, 0
  {
    match step.1
    case Stop => (step.0, sent, BrokeOnFire)
    case Crash => (step.0, sent, Failed)
    case Continue(_) => Run(step.0, rest, sent + ReplyOf(step.1))
  }

  // ---------------------------------------------------------------------
  // Properties of the broker
  // ---------------------------------------------------------------------

  /** While closed, a seat request is answered LEAVE and nothing else changes. */
  lemma ClosedRequestLeaves(s: State, to: string, g: int, customer: string, fire: bool, price: int)
    requires !s.open
    ensures Handle(s, Message(to, RequestSeat(g, customer)), fire, price)
         == (s, Continue(Some((to, Leave(g, customer)))))
  {
  }

  /** While open, a request of a counted size adds exactly one to accepted or rejected
      for its size. On success the chosen table's capacity gets one more use, profit
      grows by size * price and the reply names the first fitting table; on failure
      tables, usage and profit are unchanged and the reply is REJECTED. */
  lemma OpenRequestCounted(s: State, to: string, g: int, customer: string, fire: bool, price: int)
    requires WellFormed(s) && s.open && g in Config.CountedGroupSizes
    ensures var (s', o) := Handle(s, Message(to, RequestSeat(g, customer)), fire, price);
      s'.open &&
      s'.accepted[g] + s'.rejected[g] == s.accepted[g] + s.rejected[g] + 1 &&
      (forall k :: k in Config.CountedGroupSizes && k != g ==>
         s'.accepted[k] == s.accepted[k] && s'.rejected[k] == s.rejected[k]) &&
      (FirstFit(s.tables, g).Some? ==>
         var t := s.tables[FirstFit(s.tables, g).value];
         s'.accepted[g] == s.accepted[g] + 1 &&
         s'.usage == s.usage[t.capacity := s.usage[t.capacity] + 1] &&
         s'.profit == s.profit + g * price &&
         s'.tables == SeatTables(s.tables, g) &&
         o == SeatedOutcome(s, to, g, t.id, fire, price)) &&
      (FirstFit(s.tables, g).None? ==>
         s'.rejected[g] == s.rejected[g] + 1 &&
         s'.tables == s.tables && s'.usage == s.usage && s'.profit == s.profit &&
         o == (if fire then Stop else Continue(Some((to, Rejected(g, customer))))))
  {
    if FirstFit(s.tables, g).Some? {
      SeatedRequest(s, to, g, customer, fire, price);
    } else {
      RejectedRequest(s, to, g, customer, fire, price);
    }
  }

  /** While open, a request that finds a table never hits a missing usage counter: the
      group is seated first-fit and counted as accepted, the table's capacity gets one
      more use, profit grows by size * price, and the reply is SEATED with that table
      unless the fire flag is seen first. Rejections and the open flag are unchanged. */
  lemma SeatedRequest(s: State, to: string, g: int, customer: string, fire: bool, price: int)
    requires WellFormed(s) && s.open && FirstFit(s.tables, g).Some?
    ensures var r := Handle(s, Message(to, RequestSeat(g, customer)), fire, price);
      var t := s.tables[FirstFit(s.tables, g).value];
      r.0 == s.(tables := SeatTables(s.tables, g), profit := s.profit + g * price,
                accepted := Bump(s.accepted, g), usage := s.usage[t.capacity := s.usage[t.capacity] + 1]) &&
      r.1 == SeatedOutcome(s, to, g, t.id, fire, price)
  {
    var i := FirstFit(s.tables, g).value;
    CapacitiesCounted(s);
    assert s.tables[i].capacity in s.usage;
    assert Handle(s, Message(to, RequestSeat(g, customer)), fire, price)
        == Answer(s, to, g, customer, fire, price);
    assert Answer(s, to, g, customer, fire, price) == SeatAt(s, to, g, i, fire, price);
  }

  /** How a seated request ends: the log line raises when the group profit or the new
      total has too many digits for str(); then the fire check; then SEATED. */
  function SeatedOutcome(s: State, to: string, g: int, id: int, fire: bool, price: int): Outcome {
    if !Printable(g * price) || !Printable(s.profit + g * price) then Crash
    else if fire then Stop
    else Continue(Some((to, Seated(g, id))))
  }

  /** A seated group whose profit and new total stay below 10^k, for k within the
      digit limit, is answered SEATED unless the fire flag is seen first. */
  lemma ModestProfitSeats(s: State, to: string, g: int, id: int, fire: bool, price: int, k: nat)
    requires 1 <= k <= Config.MaxIntDigits
    requires 0 <= g * price && 0 <= s.profit && s.profit + g * price < Pow10(k)
    ensures SeatedOutcome(s, to, g, id, fire, price)
         == if fire then Stop else Continue(Some((to, Seated(g, id))))
  {
    PrintableBelow(g * price, k);
    PrintableBelow(s.profit + g * price, k);
  }

  /** While open, a request that finds no table changes only the rejected counter and
      is answered REJECTED unless the fire flag is seen first. */
  lemma RejectedRequest(s: State, to: string, g: int, customer: string, fire: bool, price: int)
    requires s.open && FirstFit(s.tables, g).None?
    ensures Handle(s, Message(to, RequestSeat(g, customer)), fire, price)
         == (s.(rejected := Bump(s.rejected, g)), if fire then Stop else Continue(Some((to, Rejected(g, customer)))))
  {
  }

  /** Every table of a well-formed state has a capacity the usage counters track. */
  lemma CapacitiesCounted(s: State)
    requires WellFormed(s)
    ensures forall i :: 0 <= i < |s.tables| ==> s.tables[i].capacity in s.usage
  {
    InitialTablesShape();
    forall i | 0 <= i < |s.tables| ensures s.tables[i].capacity in s.usage {
      assert s.tables[i].capacity == InitialTables()[i].capacity == i / 2 + 1;
    }
  }

  /** A group larger than every table is rejected while open and changes no table. */
  lemma OversizeRejected(s: State, to: string, g: int, customer: string, price: int)
    requires WellFormed(s) && s.open && forall c :: c in Config.TableSizes ==> c < g
    ensures Handle(s, Message(to, RequestSeat(g, customer)), false, price)
         == (s.(rejected := Bump(s.rejected, g)), Continue(Some((to, Rejected(g, customer)))))
  {
    InitialTablesShape();
    OversizeNeverFits(s.tables, g);
  }

  /** The profit of a seated group lies between 10 and 25 per person. */
  lemma SeatedProfitBounds(s: State, to: string, g: int, customer: string, fire: bool, price: int)
    requires s.open && g >= 0 && FirstFit(s.tables, g).Some?
    requires Config.MinPrice <= price <= Config.MaxPrice
    ensures var s' := Handle(s, Message(to, RequestSeat(g, customer)), fire, price).0;
      s.profit + 10 * g <= s'.profit <= s.profit + 25 * g
  {
    var i := FirstFit(s.tables, g).value;
    assert Handle(s, Message(to, RequestSeat(g, customer)), fire, price).0
        == SeatAt(s, to, g, i, fire, price).0;
    assert SeatAt(s, to, g, i, fire, price).0.profit == s.profit + g * price;
    ScaleBounds(g, price, Config.MinPrice, Config.MaxPrice);
  }

  lemma ScaleBounds(g: int, x: int, lo: int, hi: int)
    requires g >= 0 && lo <= x <= hi
    ensures g * lo <= g * x <= g * hi
  {
    assert g * x - g * lo == g * (x - lo);
    assert g * hi - g * x == g * (hi - x);
  }

  /** Skipped lines, unknown verbs and unparsable numbers change nothing; only a bad
      number ends the loop. */
  lemma IgnoredRecordsChangeNothing(s: State, rec: Record, fire: bool, price: int)
    requires rec.Blank? || rec.NoAddress? || rec.Incomplete? || rec.BadNumber? ||
             (rec.Message? && rec.body.UnknownVerb?)
    ensures Handle(s, rec, fire, price) == (s, if rec.BadNumber? then Crash else Continue(None))
  {
  }

  /** A record needs its sizes to be in range for the table invariant to survive:
      a request of at least one person, a release of no fewer than zero seats. */
  predicate SaneSizes(rec: Record) {
    rec.Message? ==>
      (rec.body.RequestSeat? ==> rec.body.size >= 1) &&
      (rec.body.CustomerDone? ==> rec.body.size >= 0)
  }

  /** The sizes in a tick's line are in range. */
  predicate SaneTick(t: Tick) {
    SaneSizes(ParseRecord(t.line))
  }

  /** One iteration keeps the configured shape and, with sane sizes, consistency. */
  lemma IterationKeepsInvariants(s: State, t: Tick)
    requires WellFormed(s)
    ensures WellFormed(Iteration(s, t).0)
    ensures AllConsistent(s.tables) && SaneTick(t) ==> AllConsistent(Iteration(s, t).0.tables)
  {
    var mid := ClearCheck(FireCheck(s, t.fireAtTop), t.fireAtReopen);
    ChecksKeepInvariants(s, t.fireAtTop, t.fireAtReopen);
    HandleKeepsInvariants(mid, ParseRecord(t.line), t.fireAtReply, t.price);
  }

  /** Handling a record keeps the configured shape and counter keys; with sane sizes
      it also keeps every table consistent. */
  lemma HandleKeepsInvariants(s: State, rec: Record, fire: bool, price: int)
    requires WellFormed(s)
    ensures WellFormed(Handle(s, rec, fire, price).0)
    ensures AllConsistent(s.tables) && SaneSizes(rec) ==> AllConsistent(Handle(s, rec, fire, price).0.tables)
  {
    match rec
    case Message(to, RequestSeat(g, customer)) =>
      RequestKeepsInvariants(s, to, g, customer, fire, price);
    case Message(_, CustomerDone(k, id)) =>
      ReleaseShape(s.tables, k, id);
      if AllConsistent(s.tables) && k >= 0 { ReleaseKeepsConsistent(s.tables, k, id); }
    case _ =>
  }

  /** A seat request keeps the configured shape and counter keys; a group of at least
      one person keeps every table consistent. */
  lemma RequestKeepsInvariants(s: State, to: string, g: int, customer: string, fire: bool, price: int)
    requires WellFormed(s)
    ensures var s' := Handle(s, Message(to, RequestSeat(g, customer)), fire, price).0;
      WellFormed(s') && (AllConsistent(s.tables) && g >= 1 ==> AllConsistent(s'.tables))
  {
    if s.open {
      SeatEffect(s.tables, g);
      if FirstFit(s.tables, g).Some? {
        SeatedRequest(s, to, g, customer, fire, price);
      } else {
        RejectedRequest(s, to, g, customer, fire, price);
      }
      if AllConsistent(s.tables) && g >= 1 { SeatKeepsConsistent(s.tables, g); }
    }
  }

  lemma ReleaseShape(ts: seq<Table>, k: int, id: int)
    ensures SameShape(ReleaseTables(ts, k, id), ts)
  {
  }

  /** The fire and reopen checks keep the shape; reopening leaves every table consistent. */
  lemma ChecksKeepInvariants(s: State, fireAtTop: bool, fireAtReopen: bool)
    requires WellFormed(s)
    ensures var s' := ClearCheck(FireCheck(s, fireAtTop), fireAtReopen);
      WellFormed(s') && (AllConsistent(s.tables) ==> AllConsistent(s'.tables))
  {
    InitialTablesShape();
  }

  /** Evacuation: once the fire flag is seen, requests get LEAVE and change nothing;
      raising the flag again is a no-op; when it clears, every table is empty and
      untagged, the broker is open and the counters are as before. */
  lemma EvacuationScenario(s: State, to: string, g: int, customer: string, fire: bool, price: int)
    ensures var closed := FireCheck(s, true);
      !closed.open &&
      FireCheck(closed, true) == closed &&
      ClearCheck(closed, true) == closed &&
      Handle(closed, Message(to, RequestSeat(g, customer)), fire, price)
        == (closed, Continue(Some((to, Leave(g, customer))))) &&
      var reopened := ClearCheck(closed, false);
      reopened.open &&
      reopened.tables == InitialTables() &&
      (forall i :: 0 <= i < |reopened.tables| ==> reopened.tables[i].used == 0 && reopened.tables[i].tag == None) &&
      reopened.accepted == s.accepted && reopened.rejected == s.rejected &&
      reopened.usage == s.usage && reopened.profit == s.profit
  {
    InitialTablesShape();
  }

  /** Every input sequence keeps the configured shape; if every record has sane sizes,
      every table stays consistent throughout. */
  lemma {:induction false} RunKeepsInvariants(s: State, ticks: seq<Tick>, sent: seq<(string, Reply)>)
    requires WellFormed(s)
    ensures WellFormed(Run(s, ticks, sent).0)
    ensures AllConsistent(s.tables) && (forall k :: 0 <= k < |ticks| ==> SaneTick(ticks[k]))
            ==> AllConsistent(Run(s, ticks, sent).0.tables)
    decreases |ticks|, 1
  {
    if ticks != [] {
      IterationKeepsInvariants(s, ticks[0]);
      assert forall k :: 0 <= k < |ticks| - 1 ==> ticks[1..][k] == ticks[k + 1];
      AfterKeepsInvariants(Iteration(s, ticks[0]), ticks[1..], sent);
    }
  }

  lemma {:induction false} AfterKeepsInvariants(step: (State, Outcome), rest: seq<Tick>, sent: seq<(string, Reply)>)
    requires WellFormed(step.0)
    ensures WellFormed(After(step, rest, sent).0)
    ensures AllConsistent(step.0.tables) && (forall k :: 0 <= k < |rest| ==> SaneTick(rest[k]))
            ==> AllConsistent(After(step, rest, sent).0.tables)
    decreases |rest| + 1, 0
  {
    if step.1.Continue? {
      RunKeepsInvariants(step.0, rest, sent + ReplyOf(step.1));
    }
  }

  /** The loop never takes back a reply: the replies it sends extend those already sent. */
  lemma {:induction false} RunExtendsReplies(s: State, ticks: seq<Tick>, sent: seq<(string, Reply)>)
    ensures |Run(s, ticks, sent).1| >= |sent| && Run(s, ticks, sent).1[..|sent|] == sent
    decreases |ticks|, 1
  {
    if ticks != [] {
      AfterExtendsReplies(Iteration(s, ticks[0]), ticks[1..], sent);
    }
  }

  lemma {:induction false} AfterExtendsReplies(step: (State, Outcome), rest: seq<Tick>, sent: seq<(string, Reply)>)
    ensures |After(step, rest, sent).1| >= |sent| && After(step, rest, sent).1[..|sent|] == sent
    decreases |rest| + 1, 0
  {
    if step.1.Continue? {
      RunExtendsReplies(step.0, rest, sent + ReplyOf(step.1));
      assert (sent + ReplyOf(step.1))[..|sent|] == sent;
    }
  }

  // ---------------------------------------------------------------------
  // The broker as an object
  // ---------------------------------------------------------------------

  class Broker {
    var tables: seq<Table>
    var open: bool
    var accepted: map<int, int>
    var rejected: map<int, int>
    var usage: map<int, int>
    var profit: int

    function Snapshot(): State
      reads this
    {
      State(tables, open, accepted, rejected, usage, profit)
    }

    ghost predicate Valid()
      reads this
    {
      WellFormed(Snapshot())
    }

    /** A fresh broker: the configured inventory, open, all counters zero. */
    constructor ()
      ensures Valid() && Snapshot() == InitialState()
    {
      var built := BuildTables(Config.TableCounts);
      tables := built;
      open := true;
      accepted := map[1 := 0, 2 := 0, 3 := 0];
      rejected := map[1 := 0, 2 := 0, 3 := 0];
      usage := map[1 := 0, 2 := 0, 3 := 0, 4 := 0];
      profit := 0;
    }

    /** First-fit seating: tables in ascending capacity, each capacity in creation order.
        Returns the chosen table as updated, or None when nothing fits. */
    method Seat(g: int) returns (r: Option<Table>)
      modifies this`tables
      ensures tables == SeatTables(old(tables), g)
      ensures r == match FirstFit(old(tables), g)
                   case None => None
                   case Some(i) => Some(tables[i])
    {
      var i := 0;
      while i < |tables|
        invariant 0 <= i <= |tables|
        invariant forall j :: 0 <= j < i ==> !Fits(tables[j], g)
      {
        var t := tables[i];
        if t.capacity >= g && (t.tag == None || t.tag == Some(g)) && t.capacity - t.used >= g {
          var seated := t.(used := t.used + g, tag := if t.tag == None then Some(g) else t.tag);
          tables := tables[i := seated];
          return Some(seated);
        }
        i := i + 1;
      }
      return None;
    }

    /** CUSTOMER_DONE: give back k seats at the table with the given id. */
    method Release(k: int, id: int)
      modifies this`tables
      ensures tables == ReleaseTables(old(tables), k, id)
    {
      var i := 0;
      while i < |tables|
        invariant 0 <= i <= |tables|
        invariant forall j :: 0 <= j < i ==> tables[j].id != id
      {
        if tables[i].id == id {
          var t := tables[i];
          var left := t.used - k;
          if left < 0 {
            left := 0;
          }
          tables := tables[i := t.(used := left, tag := if left == 0 then None else t.tag)];
          return;
        }
        i := i + 1;
      }
    }

    /** The fire check at the top of the loop. */
    method ObserveFire(fire: bool)
      modifies this`open
      ensures Snapshot() == FireCheck(old(Snapshot()), fire)
    {
      if fire {
        open := false;
      }
    }

    /** The reopen check: rebuild the inventory from scratch when the fire has cleared. */
    method ObserveClear(fire: bool)
      modifies this`tables, this`open
      ensures Snapshot() == ClearCheck(old(Snapshot()), fire)
    {
      if !fire && !open {
        tables := BuildTables(Config.TableCounts);
        open := true;
      }
    }

    /** Parse one inbound line and act on it. */
    method HandleRecord(line: string, fire: bool, price: int) returns (o: Outcome)
      requires Valid()
      modifies this
      ensures Valid()
      ensures (Snapshot(), o) == Handle(old(Snapshot()), ParseRecord(line), fire, price)
    {
      var rec := ParseRecord(line);
      HandleKeepsInvariants(Snapshot(), rec, fire, price);
      o := Dispatch(rec, fire, price);
    }

    /** Act on a parsed record. */
    method Dispatch(rec: Record, fire: bool, price: int) returns (o: Outcome)
      modifies this
      ensures (Snapshot(), o) == Handle(old(Snapshot()), rec, fire, price)
    {
      match rec {
        case Message(to, RequestSeat(g, customer)) =>
          o := Request(to, g, customer, fire, price);
        case Message(_, CustomerDone(k, id)) =>
          Release(k, id);
          return Continue(None);
        case Message(_, UnknownVerb(_)) =>
          return Continue(None);
        case BadNumber =>
          return Crash;
        case Blank =>
          return Continue(None);
        case NoAddress =>
          return Continue(None);
        case Incomplete =>
          return Continue(None);
      }
    }

    /** REQUEST_SEAT: LEAVE while closed; otherwise seat first-fit, count, and answer
        SEATED or REJECTED unless the fire flag is seen first. */
    method Request(to: string, g: int, customer: string, fire: bool, price: int) returns (o: Outcome)
      modifies this
      ensures (Snapshot(), o) == Answer(old(Snapshot()), to, g, customer, fire, price)
    {
      if !open {
        return Continue(Some((to, Leave(g, customer))));
      }
      var seated := Seat(g);
      match seated {
        case Some(t) =>
          profit := profit + g * price;
          if g in accepted {
            accepted := accepted[g := accepted[g] + 1];
          }
          if t.capacity !in usage {
            return Crash;
          }
          usage := usage[t.capacity := usage[t.capacity] + 1];
          if !Printable(g * price) || !Printable(profit) {
            return Crash;
          }
          if fire {
            return Stop;
          }
          return Continue(Some((to, Seated(g, t.id))));
        case None =>
          if g in rejected {
            rejected := rejected[g := rejected[g] + 1];
          }
          if fire {
            return Stop;
          }
          return Continue(Some((to, Rejected(g, customer))));
      }
    }

    /** One iteration of the broker loop. */
    method Iterate(t: Tick) returns (o: Outcome)
      requires Valid()
      modifies this
      ensures Valid()
      ensures (Snapshot(), o) == Iteration(old(Snapshot()), t)
    {
      ChecksKeepInvariants(Snapshot(), t.fireAtTop, t.fireAtReopen);
      ObserveFire(t.fireAtTop);
      ObserveClear(t.fireAtReopen);
      o := HandleRecord(t.line, t.fireAtReply, t.price);
    }

    /** The broker loop over a sequence of iteration inputs; running out of inputs stands
        for the close event. Returns the replies sent and how the loop ended. */
    method Serve(ticks: seq<Tick>) returns (sent: seq<(string, Reply)>, exit: Exit)
      requires Valid()
      modifies this
      ensures Valid()
      ensures (Snapshot(), sent, exit) == Run(old(Snapshot()), ticks, [])
    {
      sent := [];
      var k := 0;
      while k < |ticks|
        invariant 0 <= k <= |ticks|
        invariant Valid()
        invariant Run(Snapshot(), ticks[k..], sent) == Run(old(Snapshot()), ticks, [])
      {
        assert ticks[k..][1..] == ticks[k + 1..];
        var o := Iterate(ticks[k]);
        match o {
          case Stop =>
            return sent, BrokeOnFire;
          case Crash =>
            return sent, Failed;
          case Continue(reply) =>
            sent := sent + ReplyOf(o);
        }
        k := k + 1;
      }
      return sent, ClosedByEvent;
    }
  }
}
