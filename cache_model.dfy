/** The cache itself: 2^sbits sets of perset lines and the three counters.
    CacheState and its functions say on values what one survey and one
    trace operation do; the class Cache does it in place, set by set, and its
    methods are proved to match those functions. */
module CacheModel {
  import opened CacheLine
  import opened SetSurvey

  /** The whole cache as a value: the sets, set by set, and the counters. */
  datatype CacheState = CacheState(sets: seq<seq<Line>>, stats: Stats)

  /** The state after one trace operation and the outcomes of its surveys. */
  datatype Step = Step(state: CacheState, outcomes: seq<Outcome>)

  /** The shape a replay keeps: every set well formed, and no more evictions
      than misses. */
  ghost predicate WellFormedState(st: CacheState) {
    && (forall i :: 0 <= i < |st.sets| ==> WellFormed(st.sets[i]))
    && st.stats.evictions <= st.stats.misses
  }

  /** The cache as buildCache leaves it, with the counters main starts from. */
  function InitialState(numSets: nat, perset: nat): (st: CacheState)
    ensures |st.sets| == numSets
    ensures forall i :: 0 <= i < numSets ==> |st.sets[i]| == perset && ValidCount(st.sets[i]) == 0
    ensures forall i, j :: 0 <= i < numSets && 0 <= j < perset ==> st.sets[i][j] == EMPTY_LINE
    ensures st.stats == Stats(0, 0, 0)
    ensures WellFormedState(st)
  {
    var empty := seq(perset, _ => EMPTY_LINE);
    assert forall i :: 0 <= i < perset ==> !empty[i].valid;
    CountOfPrefix(empty, 0);
    CacheState(seq(numSets, _ => empty), Stats(0, 0, 0))
  }

  /** One surveySet call on set setNumber, with its update of the counters. */
  function Access(st: CacheState, setNumber: nat, tag: int, clock: int, policy: int)
    : (r: (CacheState, Outcome))
    requires setNumber < |st.sets| && |st.sets[setNumber]| >= 1
    ensures |r.0.sets| == |st.sets|
    ensures forall i :: 0 <= i < |st.sets| && i != setNumber ==> r.0.sets[i] == st.sets[i]
    ensures |r.0.sets[setNumber]| == |st.sets[setNumber]|
    ensures r.0.stats.hits + r.0.stats.misses == st.stats.hits + st.stats.misses + 1
  {
    var s := SurveyOf(st.sets[setNumber], tag, clock, policy);
    (CacheState(st.sets[setNumber := s.lines], Tally(st.stats, s.outcome)), s.outcome)
  }

  /** cacheSim: one survey, and for an M a second one at clock + 1 on the
      same set and tag. */
  function CacheSimOf(st: CacheState, tag: int, setNumber: nat, clock: int, op: char, policy: int)
    : (r: Step)
    requires setNumber < |st.sets| && |st.sets[setNumber]| >= 1
    ensures |r.state.sets| == |st.sets|
    ensures forall i :: 0 <= i < |st.sets| ==> |r.state.sets[i]| == |st.sets[i]|
    ensures forall i :: 0 <= i < |st.sets| && i != setNumber ==> r.state.sets[i] == st.sets[i]
    ensures |r.outcomes| == if op == 'M' then 2 else 1
  {
    var (first, firstOutcome) := Access(st, setNumber, tag, clock, policy);
    if op == 'M' then
      var (second, secondOutcome) := Access(first, setNumber, tag, clock + 1, policy);
      Step(second, [firstOutcome, secondOutcome])
    else
      Step(first, [firstOutcome])
  }

  /** What one trace operation does to the counters, and that an M always
      hits on its second survey and so evicts at most once. */
  lemma CacheSimAccounting(st: CacheState, tag: int, setNumber: nat, clock: int, op: char, policy: int)
    requires setNumber < |st.sets| && |st.sets[setNumber]| >= 1
    requires WellFormedState(st)
    ensures var r := CacheSimOf(st, tag, setNumber, clock, op, policy);
      && WellFormedState(r.state)
      && r.state.stats.hits + r.state.stats.misses
           == st.stats.hits + st.stats.misses + |r.outcomes|
      && r.state.stats.evictions - st.stats.evictions <= r.state.stats.misses - st.stats.misses
      && r.state.stats.evictions <= st.stats.evictions + 1
      && (op == 'M' ==> r.outcomes[1] == Hit)
  {
    var lines := st.sets[setNumber];
    var s1 := SurveyOf(lines, tag, clock, policy);
    SurveyKeepsShape(lines, tag, clock, policy);
    var (first, _) := Access(st, setNumber, tag, clock, policy);
    assert WellFormedState(first);
    if op == 'M' {
      RepeatSurveyHits(lines, tag, clock, clock + 1, policy);
      SurveyKeepsShape(s1.lines, tag, clock + 1, policy);
      var (second, _) := Access(first, setNumber, tag, clock + 1, policy);
      assert WellFormedState(second);
    }
  }

  /** The counters, updated in place through a reference as surveySet does. */
  class CacheStats {
    var hitCount: nat
    var missCount: nat
    var evictionCount: nat

    function Value(): Stats
      reads this
    {
      Stats(hitCount, missCount, evictionCount)
    }

    constructor ()
      ensures Value() == Stats(0, 0, 0)
    {
      hitCount, missCount, evictionCount := 0, 0, 0;
    }
  }

  /** surveySet: one forward scan of a set that finds a hit, fills the first
      empty line, or tracks both eviction candidates and evicts. */
  method SurveySet(singleSet: array<Line>, stats: CacheStats, tag: int, clock: int, policy: int)
    returns (outcome: Outcome)
    requires singleSet.Length >= 1
    modifies singleSet, stats
    ensures var r := SurveyOf(old(singleSet[..]), tag, clock, policy);
      singleSet[..] == r.lines && outcome == r.outcome
    ensures stats.Value() == Tally(old(stats.Value()), outcome)
  {
    ghost var before := singleSet[..];
    var stored := false;
    var minLru, minLfu := clock, clock;
    var lruIndex, lfuIndex := 0, 0;
    var i := 0;
    while i < singleSet.Length
      invariant 0 <= i <= singleSet.Length
      invariant !stored && singleSet[..] == before && stats.Value() == old(stats.Value())
      invariant forall j :: 0 <= j < i ==> before[j].valid && before[j].tag != tag
      invariant Minima(minLru, lruIndex, minLfu, lfuIndex) == Scan(before, i, clock)
    {
      if singleSet[i].valid {
        if SameTag(singleSet[i].tag, tag) == 1 {
          stats.hitCount := stats.hitCount + 1;
          stored := true;
          singleSet[i] := singleSet[i].(recent := clock, freq := singleSet[i].freq + 1);
          assert FirstStop(before, tag) == i;
          outcome := Hit;
          break;
        }
        if singleSet[i].recent < minLru {
          minLru := singleSet[i].recent;
          lruIndex := i;
        }
        if singleSet[i].freq < minLfu {
          minLfu := singleSet[i].freq;
          lfuIndex := i;
        } else if singleSet[i].freq == minLfu {
          if singleSet[i].recent < minLru {
            lfuIndex := i;
          }
        }
      } else {
        singleSet[i] := singleSet[i].(valid := true, tag := tag, recent := clock);
        stats.missCount := stats.missCount + 1;
        stored := true;
        assert FirstStop(before, tag) == i;
        outcome := Miss;
        break;
      }
      i := i + 1;
    }
    if !stored {
      assert FirstStop(before, tag) == |before|;
      var finalIndex := 0;
      if policy == LRU {
        finalIndex := lruIndex;
      } else if policy == LFU {
        finalIndex := lfuIndex;
      }
      assert finalIndex == EvictionIndex(before, clock, policy);
      singleSet[finalIndex] := singleSet[finalIndex].(recent := clock, tag := tag, freq := 0);
      stats.missCount := stats.missCount + 1;
      stats.evictionCount := stats.evictionCount + 1;
      outcome := Evict;
    }
  }

  /** The simulated cache: the set array buildCache allocates and the counters
      main keeps, updated in place. Contents is the value of every set and
      Model() the whole state as a value. */
  class Cache {
    const sets: array<array<Line>>
    const perset: nat
    const stats: CacheStats
    ghost var Contents: seq<seq<Line>>
    ghost const Repr: set<object>

    ghost predicate Valid()
      reads this, Repr
    {
      && sets in Repr && stats in Repr
      && (forall i :: 0 <= i < sets.Length ==> sets[i] in Repr)
      && (forall i, j :: 0 <= i < j < sets.Length ==> sets[i] != sets[j])
      && |Contents| == sets.Length
      && (forall i :: 0 <= i < sets.Length ==>
            sets[i].Length == perset && sets[i][..] == Contents[i])
      && WellFormedState(Model())
    }

    ghost function Model(): CacheState
      reads this, stats
    {
      CacheState(Contents, stats.Value())
    }

    /** buildCache, with main's zeroed counters: numSets sets of perset empty lines. */
    constructor (numSets: nat, perset: nat)
      ensures Valid() && fresh(Repr)
      ensures sets.Length == numSets && this.perset == perset
      ensures Model() == InitialState(numSets, perset)
    {
      var empty := seq(perset, _ => EMPTY_LINE);
      var placeholder := new Line[0];
      var cache := new array<Line>[numSets](_ => placeholder);
      var i := 0;
      while i < numSets
        invariant 0 <= i <= numSets
        invariant forall k :: 0 <= k < i ==>
          fresh(cache[k]) && cache[k].Length == perset && cache[k][..] == empty
        invariant forall k, l :: 0 <= k < l < i ==> cache[k] != cache[l]
      {
        var linePtr := new Line[perset];
        var j := 0;
        while j < perset
          invariant 0 <= j <= perset
          invariant forall l :: 0 <= l < j ==> linePtr[l] == EMPTY_LINE
          modifies linePtr
        {
          linePtr[j] := EMPTY_LINE;
          j := j + 1;
        }
        assert linePtr[..] == empty;
        cache[i] := linePtr;
        i := i + 1;
      }
      var counters := new CacheStats();
      sets := cache;
      this.perset := perset;
      stats := counters;
      Contents := seq(numSets, _ => empty);
      Repr := {cache, counters} + set k | 0 <= k < numSets :: cache[k];
    }

    /** cacheSim: survey the set once, and for an M a second time with the
        clock advanced by one; the advance stays local to this call. */
    method CacheSim(tag: int, setNumber: nat, clock: int, op: char, policy: int)
      returns (outcomes: seq<Outcome>)
      requires Valid() && setNumber < sets.Length && perset >= 1
      modifies this, stats, sets[setNumber]
      ensures Valid()
      ensures Step(Model(), outcomes) == CacheSimOf(old(Model()), tag, setNumber, clock, op, policy)
    {
      ghost var start := Model();
      var result := SurveySet(sets[setNumber], stats, tag, clock, policy);
      Contents := Contents[setNumber := sets[setNumber][..]];
      SurveyKeepsShape(start.sets[setNumber], tag, clock, policy);
      assert Valid();
      outcomes := [result];
      if op == 'M' {
        ghost var middle := Model();
        var localClock := clock;
        localClock := localClock + 1;
        result := SurveySet(sets[setNumber], stats, tag, localClock, policy);
        Contents := Contents[setNumber := sets[setNumber][..]];
        SurveyKeepsShape(middle.sets[setNumber], tag, localClock, policy);
        outcomes := outcomes + [result];
      }
    }
  }
}
