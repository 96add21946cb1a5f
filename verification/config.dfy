/** Static configuration shared by both brokers. */
module Config {
  /** Table inventory as (capacity, count) pairs, in declaration order:
      two tables each of capacity 1, 2, 3 and 4. */
  const TableCounts: seq<(int, nat)> := [(1, 2), (2, 2), (3, 2), (4, 2)]

  /** Capacities the FIFO broker keeps table-usage counters for: exactly the
      capacities that occur in TableCounts (see Inventory.TableSizesAreCapacities). */
  const TableSizes: set<int> := {1, 2, 3, 4}

  /** Group sizes the FIFO broker keeps accepted/rejected counters for. */
  const CountedGroupSizes: set<int> := {1, 2, 3}

  /** Bounds of the random per-person price the FIFO broker charges. */
  const MinPrice := 10
  const MaxPrice := 25

  /** Fixed per-person price the queue broker charges. */
  const FixedPrice := 10

  /** Most decimal digits Python's int() and str() convert (the default limit since 3.11). */
  const MaxIntDigits := 4300
}
