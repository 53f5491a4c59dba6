/** The records the simulator works on: one cache line, the outcome of one
    lookup, the running hit/miss/eviction tally, and the policy selector. */
module CacheLine {

  /** Policy selector as the command line delivers it: 0 is LRU, 1 is LFU;
      any other number is accepted and falls through to victim index 0. */
  const LRU: int := 0
  const LFU: int := 1

  /** One cache line; no data is stored, only bookkeeping. */
  datatype Line = Line(valid: bool, tag: int, recent: int, freq: int)

  /** The value every line of a freshly built cache holds. */
  const EMPTY_LINE: Line := Line(false, 0, 0, 0)

  /** What one survey of a set did: the verbose strings "hit", "miss", "evict". */
  datatype Outcome = Hit | Miss | Evict

  /** The running statistics of a whole replay. */
  datatype Stats = Stats(hits: nat, misses: nat, evictions: nat)

  /** Tag comparison in the source's style: 1 for equal tags, 0 otherwise. */
  function SameTag(tag1: int, tag2: int): (r: int)
    ensures r == 0 || r == 1
    ensures r == 1 <==> tag1 == tag2
  {
    if tag1 == tag2 then 1 else 0
  }

  /** The counter update of one survey: a hit, a miss, or a miss that evicts. */
  function Tally(stats: Stats, outcome: Outcome): (r: Stats)
    ensures r.hits + r.misses == stats.hits + stats.misses + 1
    ensures r.evictions - stats.evictions <= r.misses - stats.misses
    ensures r.hits >= stats.hits && r.misses >= stats.misses && r.evictions >= stats.evictions
    ensures r.hits > stats.hits <==> outcome == Hit
    ensures r.evictions > stats.evictions <==> outcome == Evict
  {
    match outcome
    case Hit => stats.(hits := stats.hits + 1)
    case Miss => stats.(misses := stats.misses + 1)
    case Evict => stats.(misses := stats.misses + 1, evictions := stats.evictions + 1)
  }
}
