/** The older queue-based broker: the same first-fit seating, but seating reports
    (table id, seats before, seats after), releasing does not clamp at zero, profit is a
    fixed ten per person, and after a fire the broker closes for good. Requests and
    replies travel as (type, data) tuples on one shared queue. */
module QueueBroker {
  import opened Inventory
  import Config

  /** A message taken off the shared queue. Replies the broker itself put there come
      back as `Other`. */
  datatype Msg =
    | RequestSeat(size: int, customer: int)
    | CustomerDone(size: int, customer: int, table: int)
    | Other(kind: string)

  /** A reply the broker puts on the queue. */
  datatype Reply = LeaveReply(customer: int) | SeatedReply(customer: int) | RejectedReply(customer: int)

  /** The table after k seats are given back: no clamp, untagged only at exactly zero. */
  function Vacate(t: Table, k: int): Table {
    t.(used := t.used - k, tag := if t.used - k == 0 then None else t.tag)
  }

  function ReleaseTables(ts: seq<Table>, k: int, id: int): seq<Table> {
    match IndexOfId(ts, id)
    case None => ts
    case Some(i) => ts[i := Vacate(ts[i], k)]
  }

  /** The triple seating reports: the chosen table's id and its seats before and after. */
  function SeatReport(ts: seq<Table>, g: int): (r: Option<(int, int, int)>)
    ensures r.None? <==> FirstFit(ts, g).None?
    ensures r.Some? ==>
      var t := ts[FirstFit(ts, g).value];
      r.value.0 == t.id && r.value.1 == t.used &&
      r.value.2 == r.value.1 + g && r.value.2 <= t.capacity
  {
    match FirstFit(ts, g)
    case None => None
    case Some(i) => Some((ts[i].id, ts[i].used, SeatTables(ts, g)[i].used))
  }

  /** What the queue broker's loop updates. */
  datatype State = State(tables: seq<Table>, profit: int)

  /** Handle one message; `fire` is the fire flag as read for a request. */
  function HandleMsg(s: State, m: Msg, fire: bool): (State, Option<Reply>) {
    match m
    case RequestSeat(g, c) =>
      if fire then (s, Some(LeaveReply(c)))
      else if FirstFit(s.tables, g).Some? then
        (State(SeatTables(s.tables, g), s.profit + g * Config.FixedPrice), Some(SeatedReply(c)))
      else (s, Some(RejectedReply(c)))
    case CustomerDone(g, _, id) => (s.(tables := ReleaseTables(s.tables, g, id)), None)
    case Other(_) => (s, None)
  }

  function ReplyOf(r: Option<Reply>): seq<Reply> {
    if r.Some? then [r.value] else []
  }

  /** Handle a batch of messages in order, with the fire flag as read for each. */
  function Drained(s: State, msgs: seq<Msg>, fires: seq<bool>): (State, seq<Reply>)
    requires |msgs| == |fires|
    decreases |msgs|
  {
    if msgs == [] then (s, [])
    else
      var n := |msgs| - 1;
      var (s1, sent) := Drained(s, msgs[..n], fires[..n]);
      var (s2, r) := HandleMsg(s1, msgs[n], fires[n]);
      (s2, sent + ReplyOf(r))
  }

  // ---------------------------------------------------------------------
  // Properties
  // ---------------------------------------------------------------------

  /** While the fire flag is set a request gets LEAVE and changes neither tables nor profit. */
  lemma FireRequestLeaves(s: State, g: int, c: int)
    ensures HandleMsg(s, RequestSeat(g, c), true) == (s, Some(LeaveReply(c)))
  {
  }

  /** A seated group adds exactly ten per person to profit; a rejection adds nothing. */
  lemma RequestProfit(s: State, g: int, c: int)
    ensures var (s', r) := HandleMsg(s, RequestSeat(g, c), false);
      (FirstFit(s.tables, g).Some? ==>
         r == Some(SeatedReply(c)) && s'.profit == s.profit + 10 * g &&
         s'.tables == SeatTables(s.tables, g)) &&
      (FirstFit(s.tables, g).None? ==> r == Some(RejectedReply(c)) && s' == s)
  {
  }

  /** Releasing subtracts k with no clamp (the count may go negative), the tag is cleared
      when the count is exactly zero and kept otherwise, and no other table changes. */
  lemma ReleaseEffect(ts: seq<Table>, k: int, id: int)
    ensures SameShape(ReleaseTables(ts, k, id), ts)
    ensures IndexOfId(ts, id).None? ==> ReleaseTables(ts, k, id) == ts
    ensures IndexOfId(ts, id).Some? ==>
      var i := IndexOfId(ts, id).value;
      var t, t' := ts[i], ReleaseTables(ts, k, id)[i];
      t'.used == t.used - k &&
      (t'.used == 0 ==> t'.tag == None) &&
      (t'.used != 0 ==> t'.tag == t.tag) &&
      forall j :: 0 <= j < |ts| && j != i ==> ReleaseTables(ts, k, id)[j] == ts[j]
  {
  }

  /** Releasing more seats than are in use drives the count below zero and keeps the tag. */
  lemma ReleaseCanGoNegative()
    ensures var ts := [Table(1, 2, 2, Some(2))];
      AllConsistent(ts) &&
      ReleaseTables(ts, 3, 1) == [Table(1, 2, -1, Some(2))] &&
      !AllConsistent(ReleaseTables(ts, 3, 1))
  {
    var ts := [Table(1, 2, 2, Some(2))];
    assert IndexOfId(ts, 1) == Some(0);
    assert !Consistent(ReleaseTables(ts, 3, 1)[0]);
  }

  /** The customer agent reports table 9999, which no configured table has, so its
      release changes nothing. */
  lemma UnknownTableIgnored(ts: seq<Table>, k: int)
    requires SameShape(ts, InitialTables())
    ensures ReleaseTables(ts, k, 9999) == ts
  {
    InitialTablesShape();
    assert forall j :: 0 <= j < |ts| ==> ts[j].id == j + 1;
  }

  /** Seating g and releasing g at the reported table restores the inventory. */
  lemma SeatReleaseRoundTrip(ts: seq<Table>, g: int)
    requires AllConsistent(ts) && UniqueIds(ts)
    requires SeatReport(ts, g).Some?
    ensures ReleaseTables(SeatTables(ts, g), g, SeatReport(ts, g).value.0) == ts
  {
    var i := FirstFit(ts, g).value;
    var seated := SeatTables(ts, g);
    assert UniqueIds(seated) by {
      forall a, b | 0 <= a < b < |seated| ensures seated[a].id != seated[b].id {
        assert seated[a].id == ts[a].id && seated[b].id == ts[b].id;
      }
    }
    IndexOfOwnId(seated, i);
    assert Vacate(seated[i], g) == ts[i];
  }

  /** A batch handled while the fire flag stays set earns nothing. */
  lemma {:induction false} FireBatchEarnsNothing(s: State, msgs: seq<Msg>, fires: seq<bool>)
    requires |msgs| == |fires|
    requires forall k :: 0 <= k < |fires| ==> fires[k]
    ensures Drained(s, msgs, fires).0.profit == s.profit
    decreases |msgs|
  {
    if msgs != [] {
      var n := |msgs| - 1;
      FireBatchEarnsNothing(s, msgs[..n], fires[..n]);
    }
  }

  /** With no negative group sizes, profit never falls over a batch. */
  lemma {:induction false} ProfitNeverFalls(s: State, msgs: seq<Msg>, fires: seq<bool>)
    requires |msgs| == |fires|
    requires forall k :: 0 <= k < |msgs| ==> msgs[k].RequestSeat? ==> msgs[k].size >= 0
    ensures Drained(s, msgs, fires).0.profit >= s.profit
    decreases |msgs|
  {
    if msgs != [] {
      var n := |msgs| - 1;
      ProfitNeverFalls(s, msgs[..n], fires[..n]);
    }
  }

  /** Every request in a batch gets exactly one reply, other messages none. */
  lemma {:induction false} OneReplyPerRequest(s: State, msgs: seq<Msg>, fires: seq<bool>)
    requires |msgs| == |fires|
    ensures |Drained(s, msgs, fires).1| == Requests(msgs)
    decreases |msgs|
  {
    if msgs != [] {
      var n := |msgs| - 1;
      OneReplyPerRequest(s, msgs[..n], fires[..n]);
      assert msgs[..n] + [msgs[n]] == msgs;
      RequestsAppend(msgs[..n], msgs[n]);
    }
  }

  /** Number of seat requests among the messages. */
  function Requests(msgs: seq<Msg>): nat {
    if msgs == [] then 0 else (if msgs[0].RequestSeat? then 1 else 0) + Requests(msgs[1..])
  }

  lemma {:induction false} RequestsAppend(msgs: seq<Msg>, m: Msg)
    ensures Requests(msgs + [m]) == Requests(msgs) + (if m.RequestSeat? then 1 else 0)
    decreases |msgs|
  {
    if msgs != [] {
      assert (msgs + [m])[1..] == msgs[1..] + [m];
      RequestsAppend(msgs[1..], m);
    }
  }

  // ---------------------------------------------------------------------
  // The broker as an object
  // ---------------------------------------------------------------------

  class Broker {
    var tables: seq<Table>
    var profit: int

    function Snapshot(): State
      reads this
    {
      State(tables, profit)
    }

    /** The configured inventory and no profit yet. */
    constructor ()
      ensures Snapshot() == State(InitialTables(), 0)
    {
      var built := BuildTables(Config.TableCounts);
      tables := built;
      profit := 0;
    }

    /** First-fit seating, reporting (table id, seats before, seats after). */
    method Seat(g: int) returns (r: Option<(int, int, int)>)
      modifies this`tables
      ensures tables == SeatTables(old(tables), g)
      ensures r == SeatReport(old(tables), g)
    {
      var i := 0;
      while i < |tables|
        invariant 0 <= i <= |tables|
        invariant forall j :: 0 <= j < i ==> !Fits(tables[j], g)
      {
        var t := tables[i];
        if t.capacity >= g && (t.tag == None || t.tag == Some(g)) && t.capacity - t.used >= g {
          var before := t.used;
          var seated := t.(used := t.used + g, tag := if t.tag == None then Some(g) else t.tag);
          tables := tables[i := seated];
          return Some((t.id, before, seated.used));
        }
        i := i + 1;
      }
      return None;
    }

    /** CUSTOMER_DONE: give back k seats at the table with the given id, without clamping. */
    method Release(k: int, id: int)
      modifies this`tables
      ensures tables == ReleaseTables(old(tables), k, id)
    {
      var i := 0;
      while i < |tables|
        invariant 0 <= i <= |tables|
        invariant forall j :: 0 <= j < i ==> tables[j].id != id
      {
        if tables[i].id == id {
          var t := tables[i];
          var left := t.used - k;
          tables := tables[i := t.(used := left, tag := if left == 0 then None else t.tag)];
          return;
        }
        i := i + 1;
      }
    }

    /** Handle one message taken off the queue. */
    method Handle(m: Msg, fire: bool) returns (reply: Option<Reply>)
      modifies this
      ensures (Snapshot(), reply) == HandleMsg(old(Snapshot()), m, fire)
    {
      match m {
        case RequestSeat(g, c) =>
          if fire {
            return Some(LeaveReply(c));
          }
          var seated := Seat(g);
          if seated.Some? {
            profit := profit + g * Config.FixedPrice;
            return Some(SeatedReply(c));
          }
          return Some(RejectedReply(c));
        case CustomerDone(g, _, id) =>
          Release(g, id);
          return None;
        case Other(_) =>
          return None;
      }
    }

    /** Empty the queue: handle every message in turn and collect the replies. */
    method Drain(msgs: seq<Msg>, fires: seq<bool>) returns (sent: seq<Reply>)
      requires |msgs| == |fires|
      modifies this
      ensures (Snapshot(), sent) == Drained(old(Snapshot()), msgs, fires)
    {
      sent := [];
      var k := 0;
      while k < |msgs|
        invariant 0 <= k <= |msgs|
        invariant (Snapshot(), sent) == Drained(old(Snapshot()), msgs[..k], fires[..k])
      {
        assert msgs[..k + 1][..k] == msgs[..k] && fires[..k + 1][..k] == fires[..k];
        var r := Handle(msgs[k], fires[k]);
        sent := sent + ReplyOf(r);
        k := k + 1;
      }
      assert msgs[..k] == msgs && fires[..k] == fires;
    }

    /** One pass of the broker loop: drain the queue, then close for good if the fire
        flag is set. */
    method Cycle(msgs: seq<Msg>, fires: seq<bool>, fireAfter: bool) returns (sent: seq<Reply>, close: bool)
      requires |msgs| == |fires|
      modifies this
      ensures (Snapshot(), sent) == Drained(old(Snapshot()), msgs, fires)
      ensures close == fireAfter
    {
      sent := Drain(msgs, fires);
      close := fireAfter;
    }
  }
}
