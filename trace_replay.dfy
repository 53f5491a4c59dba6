/** The replay loop of main: every accepted trace record advances the clock
    by one, is decoded into tag and set index, and is handed to cacheSim.
    Reading and parsing the trace file happen before this point: a trace is a
    sequence of already-parsed records, instruction fetches already dropped. */
module TraceReplay {
  import opened CacheLine
  import opened AddressDecoder
  import opened SetSurvey
  import opened CacheModel

  /** One accepted trace line: its operation character and its address. */
  datatype Record = Record(op: char, address: nat)

  /** The resolved command-line configuration. */
  datatype Config = Config(sbits: nat, perset: nat, bbits: nat, policy: int)

  /** What the simulation needs of its configuration: tag and set bits fit in
      a 64-bit address, and every set has at least one line. */
  predicate ValidConfig(cfg: Config) {
    cfg.sbits + cfg.bbits <= ADDRESS_BITS && cfg.perset >= 1
  }

  /** The state has the 2^sbits sets of perset lines buildCache allocates. */
  ghost predicate Shaped(st: CacheState, cfg: Config) {
    && |st.sets| == Pow2(cfg.sbits)
    && forall i :: 0 <= i < |st.sets| ==> |st.sets[i]| == cfg.perset
  }

  /** Every decoded set index names one of the sets the cache holds. */
  lemma SetIndexInRange(st: CacheState, address: nat, cfg: Config)
    requires ValidConfig(cfg) && Shaped(st, cfg)
    ensures FindSet(address, cfg.sbits, cfg.bbits) < |st.sets|
  {
  }

  /** How many set surveys a trace causes: two for an M, one for anything else. */
  function SubAccesses(trace: seq<Record>): (n: nat)
    ensures |trace| <= n <= 2 * |trace|
  {
    if trace == [] then 0
    else (if trace[0].op == 'M' then 2 else 1) + SubAccesses(trace[1..])
  }

  /** One record at clock value now: decode its address and run cacheSim. */
  function Advance(st: CacheState, rec: Record, now: int, cfg: Config): (r: CacheState)
    requires ValidConfig(cfg) && Shaped(st, cfg)
    ensures Shaped(r, cfg)
  {
    CacheSimOf(st, FindTag(rec.address, cfg.sbits, cfg.bbits), FindSet(rec.address, cfg.sbits, cfg.bbits),
               now, rec.op, cfg.policy).state
  }

  /** The state after replaying trace from st, where clock is the clock value
      before the first record. */
  function ReplayFrom(st: CacheState, trace: seq<Record>, clock: int, cfg: Config): (r: CacheState)
    requires ValidConfig(cfg) && Shaped(st, cfg)
    ensures Shaped(r, cfg)
    decreases |trace|
  {
    if trace == [] then st
    else ReplayFrom(Advance(st, trace[0], clock + 1, cfg), trace[1..], clock + 1, cfg)
  }

  /** The counters over a whole replay: one hit or miss per survey, never
      more evictions than misses, and at most one eviction per record. */
  lemma {:induction false} ReplayAccounting(st: CacheState, trace: seq<Record>, clock: int, cfg: Config)
    requires ValidConfig(cfg) && Shaped(st, cfg) && WellFormedState(st)
    ensures var r := ReplayFrom(st, trace, clock, cfg);
      && WellFormedState(r)
      && r.stats.hits + r.stats.misses == st.stats.hits + st.stats.misses + SubAccesses(trace)
      && r.stats.evictions <= st.stats.evictions + |trace|
    decreases |trace|
  {
    if trace != [] {
      var now := clock + 1;
      var address := trace[0].address;
      var tag, setNumber := FindTag(address, cfg.sbits, cfg.bbits), FindSet(address, cfg.sbits, cfg.bbits);
      var next := CacheSimOf(st, tag, setNumber, now, trace[0].op, cfg.policy);
      CacheSimAccounting(st, tag, setNumber, now, trace[0].op, cfg.policy);
      assert Shaped(next.state, cfg);
      assert ReplayFrom(st, trace, clock, cfg) == ReplayFrom(next.state, trace[1..], now, cfg);
      ReplayAccounting(next.state, trace[1..], now, cfg);
      assert SubAccesses(trace) == |next.outcomes| + SubAccesses(trace[1..]);
    }
  }

  /** Replaying two traces one after the other is replaying their concatenation. */
  lemma {:induction false} ReplayAppend(st: CacheState, t1: seq<Record>, t2: seq<Record>, clock: int, cfg: Config)
    requires ValidConfig(cfg) && Shaped(st, cfg)
    ensures ReplayFrom(st, t1 + t2, clock, cfg)
         == ReplayFrom(ReplayFrom(st, t1, clock, cfg), t2, clock + |t1|, cfg)
    decreases |t1|
  {
    if t1 != [] {
      var next := Advance(st, t1[0], clock + 1, cfg);
      assert (t1 + t2)[0] == t1[0] && (t1 + t2)[1..] == t1[1..] + t2;
      assert ReplayFrom(st, t1 + t2, clock, cfg) == ReplayFrom(next, t1[1..] + t2, clock + 1, cfg);
      assert ReplayFrom(st, t1, clock, cfg) == ReplayFrom(next, t1[1..], clock + 1, cfg);
      ReplayAppend(next, t1[1..], t2, clock + 1, cfg);
    } else {
      assert t1 + t2 == t2;
    }
  }

  /** main's replay loop over a parsed trace, from a freshly built cache. */
  method Simulate(cfg: Config, trace: seq<Record>) returns (stats: Stats)
    requires ValidConfig(cfg)
    ensures stats == ReplayFrom(InitialState(Pow2(cfg.sbits), cfg.perset), trace, 0, cfg).stats
    ensures stats.hits + stats.misses == SubAccesses(trace)
    ensures stats.evictions <= stats.misses && stats.evictions <= |trace|
    ensures trace == [] ==> stats == Stats(0, 0, 0)
  {
    var clock := 0;
    var sets := Pow2(cfg.sbits);
    var cache := new Cache(sets, cfg.perset);
    ghost var initial := cache.Model();
    var i := 0;
    while i < |trace|
      invariant 0 <= i <= |trace| && clock == i
      invariant cache.Valid() && fresh(cache.Repr)
      invariant cache.sets.Length == sets && cache.perset == cfg.perset
      invariant Shaped(cache.Model(), cfg)
      invariant ReplayFrom(cache.Model(), trace[i..], clock, cfg) == ReplayFrom(initial, trace, 0, cfg)
    {
      clock := clock + 1;
      var address := trace[i].address;
      var tag := FindTag(address, cfg.sbits, cfg.bbits);
      var setNumber := FindSet(address, cfg.sbits, cfg.bbits);
      assert trace[i..][1..] == trace[i + 1..];
      var _ := cache.CacheSim(tag, setNumber, clock, trace[i].op, cfg.policy);
      i := i + 1;
    }
    assert trace[i..] == [];
    stats := cache.stats.Value();
    ReplayAccounting(initial, trace, 0, cfg);
  }

  // ---------------------------------------------------------------------------
  // Worked traces

  /** One set of one line, addresses 0x0, 0x10, 0x0: three misses, the last
      two evicting. */
  lemma DirectMappedScenario()
    ensures ReplayFrom(InitialState(1, 1), [Record('L', 0x0), Record('L', 0x10), Record('L', 0x0)],
                       0, Config(0, 1, 0, LRU)).stats == Stats(0, 3, 2)
  {
    DecodeWithoutSetOrBlockBits(0x0);
    DecodeWithoutSetOrBlockBits(0x10);
  }

  /** A single M on an empty cache: a miss without eviction, then a hit. */
  lemma ModifyOnEmptyScenario()
    ensures ReplayFrom(InitialState(1, 1), [Record('M', 0x10)], 0, Config(0, 1, 0, LRU)).stats
         == Stats(1, 1, 0)
  {
    DecodeWithoutSetOrBlockBits(0x10);
  }

  /** One record on a cache of a single set, with no set-index and no
      block-offset bits: the tag is the whole address. */
  lemma SingleSetAdvance(st: CacheState, rec: Record, now: int, cfg: Config)
    requires ValidConfig(cfg) && cfg.sbits == 0 && cfg.bbits == 0 && Shaped(st, cfg)
    requires rec.address < ADDRESS_LIMIT
    ensures var r := Advance(st, rec, now, cfg);
      var first := SurveyOf(st.sets[0], rec.address, now, cfg.policy);
      && |r.sets| == 1
      && r.sets[0] == (if rec.op == 'M' then SurveyOf(first.lines, rec.address, now + 1, cfg.policy).lines
                       else first.lines)
  {
    DecodeWithoutSetOrBlockBits(rec.address);
  }

  /** Tags a, b, a from an empty two-line set at clock values 1, 2, 3: a
      fills line 0, b fills line 1, and a hits line 0. */
  lemma TwoLineWarmUp(a: nat, b: nat, policy: int)
    requires a < ADDRESS_LIMIT && b < ADDRESS_LIMIT && a != b
    ensures var r := ReplayFrom(InitialState(1, 2), [Record('L', a), Record('L', b), Record('L', a)],
                                0, Config(0, 2, 0, policy));
      |r.sets| == 1 && r.sets[0] == [Line(true, a, 3, 1), Line(true, b, 2, 0)]
  {
    var cfg := Config(0, 2, 0, policy);
    var trace := [Record('L', a), Record('L', b), Record('L', a)];
    var s0 := InitialState(1, 2);
    var lines0 := s0.sets[0];
    assert !lines0[0].valid && !lines0[1].valid;
    SurveyFill(lines0, a, 1, policy);
    var s1 := Advance(s0, trace[0], 1, cfg);
    SingleSetAdvance(s0, trace[0], 1, cfg);
    var lines1 := [Line(true, a, 1, 0), EMPTY_LINE];
    assert s1.sets[0] == lines1;
    assert !lines1[1].valid;
    assert !Holds(lines1, b) && !Full(lines1);
    SurveyFill(lines1, b, 2, policy);
    var s2 := Advance(s1, trace[1], 2, cfg);
    SingleSetAdvance(s1, trace[1], 2, cfg);
    var lines2 := [Line(true, a, 1, 0), Line(true, b, 2, 0)];
    assert s2.sets[0] == lines2;
    SurveyHit(lines2, a, 3, policy, 0);
    var s3 := Advance(s2, trace[2], 3, cfg);
    SingleSetAdvance(s2, trace[2], 3, cfg);
    assert ReplayFrom(s0, trace, 0, cfg) == ReplayFrom(s1, trace[1..], 1, cfg);
    assert ReplayFrom(s1, trace[1..], 1, cfg) == ReplayFrom(s2, trace[2..], 2, cfg);
    assert ReplayFrom(s2, trace[2..], 2, cfg) == ReplayFrom(s3, [], 3, cfg);
  }

  /** The last record of the LRU trace: c evicts b, whose recency is the lower. */
  lemma LruEvict(s3: CacheState, a: nat, b: nat, c: nat)
    requires c < ADDRESS_LIMIT && a != b && a != c && b != c
    requires Shaped(s3, Config(0, 2, 0, LRU))
    requires s3.sets[0] == [Line(true, a, 3, 1), Line(true, b, 2, 0)]
    ensures ReplayFrom(s3, [Record('L', c)], 3, Config(0, 2, 0, LRU)).sets[0]
         == [Line(true, a, 3, 1), Line(true, c, 4, 0)]
  {
    var cfg := Config(0, 2, 0, LRU);
    var lines3 := s3.sets[0];
    EvictionVictim(lines3, 4, LRU);
    assert lines3[1].recent < 4;
    assert EvictionIndex(lines3, 4, LRU) == 1;
    assert !Holds(lines3, c) && Full(lines3);
    SurveyEvict(lines3, c, 4, LRU);
    var s4 := Advance(s3, Record('L', c), 4, cfg);
    SingleSetAdvance(s3, Record('L', c), 4, cfg);
    assert ReplayFrom(s3, [Record('L', c)], 3, cfg) == ReplayFrom(s4, [], 4, cfg);
  }

  /** LRU with two lines, tags a, b, a, c: c replaces b, the least recently used. */
  lemma LruScenario(a: nat, b: nat, c: nat)
    requires a < ADDRESS_LIMIT && b < ADDRESS_LIMIT && c < ADDRESS_LIMIT
    requires a != b && a != c && b != c
    ensures ReplayFrom(InitialState(1, 2), [Record('L', a), Record('L', b), Record('L', a), Record('L', c)],
                       0, Config(0, 2, 0, LRU)).sets[0]
         == [Line(true, a, 3, 1), Line(true, c, 4, 0)]
  {
    var cfg := Config(0, 2, 0, LRU);
    var warmUp := [Record('L', a), Record('L', b), Record('L', a)];
    var rest := [Record('L', c)];
    TwoLineWarmUp(a, b, LRU);
    ReplayAppend(InitialState(1, 2), warmUp, rest, 0, cfg);
    assert warmUp + rest == [Record('L', a), Record('L', b), Record('L', a), Record('L', c)];
    LruEvict(ReplayFrom(InitialState(1, 2), warmUp, 0, cfg), a, b, c);
  }

  /** The last two records of the LFU trace: a hits once more, then c
      evicts b, whose frequency is the lower. */
  lemma LfuHitThenEvict(s3: CacheState, a: nat, b: nat, c: nat)
    requires a < ADDRESS_LIMIT && c < ADDRESS_LIMIT && a != b && a != c && b != c
    requires Shaped(s3, Config(0, 2, 0, LFU))
    requires s3.sets[0] == [Line(true, a, 3, 1), Line(true, b, 2, 0)]
    ensures ReplayFrom(s3, [Record('L', a), Record('L', c)], 3, Config(0, 2, 0, LFU)).sets[0]
         == [Line(true, a, 4, 2), Line(true, c, 5, 0)]
  {
    var cfg := Config(0, 2, 0, LFU);
    var rest := [Record('L', a), Record('L', c)];
    var lines3 := s3.sets[0];
    SurveyHit(lines3, a, 4, LFU, 0);
    var s4 := Advance(s3, rest[0], 4, cfg);
    SingleSetAdvance(s3, rest[0], 4, cfg);
    var lines4 := [Line(true, a, 4, 2), Line(true, b, 2, 0)];
    assert s4.sets[0] == lines4;
    EvictionVictim(lines4, 5, LFU);
    assert lines4[1].freq < 5;
    assert EvictionIndex(lines4, 5, LFU) == 1;
    assert !Holds(lines4, c) && Full(lines4);
    SurveyEvict(lines4, c, 5, LFU);
    var s5 := Advance(s4, rest[1], 5, cfg);
    SingleSetAdvance(s4, rest[1], 5, cfg);
    assert ReplayFrom(s3, rest, 3, cfg) == ReplayFrom(s4, rest[1..], 4, cfg);
    assert ReplayFrom(s4, rest[1..], 4, cfg) == ReplayFrom(s5, [], 5, cfg);
  }

  /** LFU with two lines, tags a, b, a, a, c: c replaces b, the less used. */
  lemma LfuScenario(a: nat, b: nat, c: nat)
    requires a < ADDRESS_LIMIT && b < ADDRESS_LIMIT && c < ADDRESS_LIMIT
    requires a != b && a != c && b != c
    ensures ReplayFrom(InitialState(1, 2),
                       [Record('L', a), Record('L', b), Record('L', a), Record('L', a), Record('L', c)],
                       0, Config(0, 2, 0, LFU)).sets[0]
         == [Line(true, a, 4, 2), Line(true, c, 5, 0)]
  {
    var cfg := Config(0, 2, 0, LFU);
    var warmUp := [Record('L', a), Record('L', b), Record('L', a)];
    var rest := [Record('L', a), Record('L', c)];
    TwoLineWarmUp(a, b, LFU);
    ReplayAppend(InitialState(1, 2), warmUp, rest, 0, cfg);
    assert warmUp + rest == [Record('L', a), Record('L', b), Record('L', a), Record('L', a), Record('L', c)];
    LfuHitThenEvict(ReplayFrom(InitialState(1, 2), warmUp, 0, cfg), a, b, c);
  }

  /** The clock advance of an M is local to cacheSim: after M a then L b, the
      second half of the M and the following record used the same clock value. */
  lemma ModifyClockIsShared(a: nat, b: nat)
    requires a < ADDRESS_LIMIT && b < ADDRESS_LIMIT && a != b
    ensures ReplayFrom(InitialState(1, 2), [Record('M', a), Record('L', b)], 0, Config(0, 2, 0, LRU)).sets[0]
         == [Line(true, a, 2, 1), Line(true, b, 2, 0)]
  {
    var cfg := Config(0, 2, 0, LRU);
    var trace := [Record('M', a), Record('L', b)];
    var s0 := InitialState(1, 2);
    var lines0 := s0.sets[0];
    assert !lines0[0].valid && !lines0[1].valid;
    SurveyFill(lines0, a, 1, LRU);
    var half := [Line(true, a, 1, 0), EMPTY_LINE];
    assert SurveyOf(lines0, a, 1, LRU).lines == half;
    SurveyHit(half, a, 2, LRU, 0);
    var s1 := Advance(s0, trace[0], 1, cfg);
    SingleSetAdvance(s0, trace[0], 1, cfg);
    var lines1 := [Line(true, a, 2, 1), EMPTY_LINE];
    assert s1.sets[0] == lines1;
    assert !lines1[1].valid;
    assert !Holds(lines1, b) && !Full(lines1);
    SurveyFill(lines1, b, 2, LRU);
    var s2 := Advance(s1, trace[1], 2, cfg);
    SingleSetAdvance(s1, trace[1], 2, cfg);
    assert ReplayFrom(s0, trace, 0, cfg) == ReplayFrom(s1, trace[1..], 1, cfg);
    assert ReplayFrom(s1, trace[1..], 1, cfg) == ReplayFrom(s2, [], 2, cfg);
  }
}
