/** What one survey of a set does to the set, stated on values. The class
    Cache in cache_model.dfy runs the survey in place with a single loop and is
    proved to produce exactly SurveyOf of the set it started from. */
module SetSurvey {
  import opened CacheLine

  /** The result of surveying one set: the outcome and the set afterwards. */
  datatype Survey = Survey(outcome: Outcome, lines: seq<Line>)

  /** The running minima the scan keeps: least recency and its line index,
      least frequency and its line index. */
  datatype Minima = Minima(minLru: int, lruIndex: nat, minLfu: int, lfuIndex: nat)

  /** Where the scan stops: the first line that is empty or holds the tag;
      the set size when there is none. */
  function FirstStop(lines: seq<Line>, tag: int): (k: nat)
    ensures k <= |lines|
    ensures forall j :: 0 <= j < k ==> lines[j].valid && lines[j].tag != tag
    ensures k < |lines| ==> !lines[k].valid || lines[k].tag == tag
    decreases |lines|
  {
    if lines == [] then 0
    else if !lines[0].valid || lines[0].tag == tag then 0
    else
      var k := 1 + FirstStop(lines[1..], tag);
      assert forall j :: 1 <= j < k ==> lines[j] == lines[1..][j - 1];
      k
  }

  /** One step of the scan over a valid line that does not hold the tag.
      The LFU tie-break compares the line's recency with the LRU minimum that
      this very step may just have lowered to that recency, so on equal
      frequency it never moves the LFU index. */
  function Track(m: Minima, line: Line, i: nat): (r: Minima)
    ensures r.minLru <= line.recent || r.minLru == m.minLru
    ensures r.minLru <= m.minLru && r.minLfu <= m.minLfu
    ensures r.lfuIndex == (if line.freq < m.minLfu then i else m.lfuIndex)
  {
    var (minLru, lruIndex) :=
      if line.recent < m.minLru then (line.recent, i) else (m.minLru, m.lruIndex);
    var (minLfu, lfuIndex) :=
      if line.freq < m.minLfu then (line.freq, i)
      else if line.freq == m.minLfu && line.recent < minLru then (m.minLfu, i)
      else (m.minLfu, m.lfuIndex);
    Minima(minLru, lruIndex, minLfu, lfuIndex)
  }

  /** The minima after scanning the first n lines; both start at the clock
      value with index 0. */
  function Scan(lines: seq<Line>, n: nat, clock: int): (r: Minima)
    requires n <= |lines|
    ensures r.lruIndex == 0 || r.lruIndex < n
    ensures r.lfuIndex == 0 || r.lfuIndex < n
    ensures r.minLru <= clock && r.minLfu <= clock
  {
    if n == 0 then Minima(clock, 0, clock, 0)
    else Track(Scan(lines, n - 1, clock), lines[n - 1], n - 1)
  }

  /** The line a full set gives up: the LRU candidate, the LFU candidate, or
      index 0 for a policy number that is neither. */
  function EvictionIndex(lines: seq<Line>, clock: int, policy: int): (v: nat)
    requires |lines| >= 1
    ensures v < |lines|
  {
    var m := Scan(lines, |lines|, clock);
    if policy == LRU then m.lruIndex
    else if policy == LFU then m.lfuIndex
    else 0
  }

  /** surveySet on a set of at least one line: hit, fill the first empty line,
      or evict. */
  function SurveyOf(lines: seq<Line>, tag: int, clock: int, policy: int): (r: Survey)
    requires |lines| >= 1
    ensures |r.lines| == |lines|
  {
    var k := FirstStop(lines, tag);
    if k < |lines| && lines[k].valid then
      Survey(Hit, lines[k := lines[k].(recent := clock, freq := lines[k].freq + 1)])
    else if k < |lines| then
      Survey(Miss, lines[k := lines[k].(valid := true, tag := tag, recent := clock)])
    else
      var v := EvictionIndex(lines, clock, policy);
      Survey(Evict, lines[v := lines[v].(recent := clock, tag := tag, freq := 0)])
  }

  // ---------------------------------------------------------------------------
  // Shape of a set

  /** The shape every set keeps: valid lines form a prefix, empty lines are
      untouched, and no tag is held by two valid lines. */
  ghost predicate WellFormed(lines: seq<Line>) {
    && (forall i, j :: 0 <= i < j < |lines| && lines[j].valid ==> lines[i].valid)
    && (forall i :: 0 <= i < |lines| && !lines[i].valid ==> lines[i] == EMPTY_LINE)
    && (forall i, j :: 0 <= i < j < |lines| && lines[i].valid && lines[j].valid ==>
          lines[i].tag != lines[j].tag)
  }

  /** Some valid line holds the tag. */
  ghost predicate Holds(lines: seq<Line>, tag: int) {
    exists i :: 0 <= i < |lines| && lines[i].valid && lines[i].tag == tag
  }

  /** Every line is valid. */
  ghost predicate Full(lines: seq<Line>) {
    forall i :: 0 <= i < |lines| ==> lines[i].valid
  }

  /** Number of valid lines. */
  function ValidCount(lines: seq<Line>): (n: nat)
    ensures n <= |lines|
  {
    if lines == [] then 0
    else (if lines[|lines| - 1].valid then 1 else 0) + ValidCount(lines[..|lines| - 1])
  }

  /** Line v has the least recency of the set and is the first line that has it. */
  ghost predicate FirstLeastRecent(lines: seq<Line>, v: nat) {
    && v < |lines|
    && (forall j :: 0 <= j < |lines| ==> lines[v].recent <= lines[j].recent)
    && (forall j :: 0 <= j < v ==> lines[v].recent < lines[j].recent)
  }

  /** Line v has the least frequency of the set and is the first line that has it. */
  ghost predicate FirstLeastFrequent(lines: seq<Line>, v: nat) {
    && v < |lines|
    && (forall j :: 0 <= j < |lines| ==> lines[v].freq <= lines[j].freq)
    && (forall j :: 0 <= j < v ==> lines[v].freq < lines[j].freq)
  }

  // ---------------------------------------------------------------------------
  // The running minima

  /** The LRU candidate after n lines: the first line of least recency when
      some recency is below the clock, otherwise index 0 with the clock as minimum. */
  lemma {:induction false} ScanLru(lines: seq<Line>, n: nat, clock: int)
    requires n <= |lines|
    ensures var m := Scan(lines, n, clock);
      if exists j :: 0 <= j < n && lines[j].recent < clock then
        && m.lruIndex < n && m.minLru == lines[m.lruIndex].recent
        && (forall j :: 0 <= j < n ==> m.minLru <= lines[j].recent)
        && (forall j :: 0 <= j < m.lruIndex ==> m.minLru < lines[j].recent)
      else
        m.lruIndex == 0 && m.minLru == clock
  {
    if n > 0 {
      ScanLru(lines, n - 1, clock);
      if !exists j :: 0 <= j < n - 1 && lines[j].recent < clock {
        if lines[n - 1].recent < clock {
          forall j | 0 <= j < n ensures lines[n - 1].recent <= lines[j].recent {
            assert !(lines[j].recent < clock) || j == n - 1;
          }
        }
      }
    }
  }

  /** The LFU candidate after n lines: the first line of least frequency when
      some frequency is below the clock, otherwise index 0. Recency plays no part. */
  lemma {:induction false} ScanLfu(lines: seq<Line>, n: nat, clock: int)
    requires n <= |lines|
    ensures var m := Scan(lines, n, clock);
      if exists j :: 0 <= j < n && lines[j].freq < clock then
        && m.lfuIndex < n && m.minLfu == lines[m.lfuIndex].freq
        && (forall j :: 0 <= j < n ==> m.minLfu <= lines[j].freq)
        && (forall j :: 0 <= j < m.lfuIndex ==> m.minLfu < lines[j].freq)
      else
        m.lfuIndex == 0 && m.minLfu == clock
  {
    if n > 0 {
      ScanLfu(lines, n - 1, clock);
      if !exists j :: 0 <= j < n - 1 && lines[j].freq < clock {
        if lines[n - 1].freq < clock {
          forall j | 0 <= j < n ensures lines[n - 1].freq <= lines[j].freq {
            assert !(lines[j].freq < clock) || j == n - 1;
          }
        }
      }
    }
  }

  /** Which line a full set gives up, by policy. */
  lemma EvictionVictim(lines: seq<Line>, clock: int, policy: int)
    requires |lines| >= 1
    ensures var v := EvictionIndex(lines, clock, policy);
      && (policy == LRU ==>
            if exists j :: 0 <= j < |lines| && lines[j].recent < clock
            then FirstLeastRecent(lines, v) else v == 0)
      && (policy == LFU ==>
            if exists j :: 0 <= j < |lines| && lines[j].freq < clock
            then FirstLeastFrequent(lines, v) else v == 0)
      && (policy != LRU && policy != LFU ==> v == 0)
  {
    ScanLru(lines, |lines|, clock);
    ScanLfu(lines, |lines|, clock);
  }

  // ---------------------------------------------------------------------------
  // The three outcomes

  /** The outcome of a survey of a well-formed set: a hit exactly when a valid
      line holds the tag, a plain miss when it does not and a line is empty,
      an eviction when it does not and every line is valid. */
  lemma SurveyOutcome(lines: seq<Line>, tag: int, clock: int, policy: int)
    requires |lines| >= 1 && WellFormed(lines)
    ensures var r := SurveyOf(lines, tag, clock, policy);
      && (r.outcome == Hit <==> Holds(lines, tag))
      && (r.outcome == Miss <==> !Holds(lines, tag) && !Full(lines))
      && (r.outcome == Evict <==> !Holds(lines, tag) && Full(lines))
  {
    var k := FirstStop(lines, tag);
    if Holds(lines, tag) {
      var i :| 0 <= i < |lines| && lines[i].valid && lines[i].tag == tag;
      assert k <= i;
    }
    if k < |lines| && !lines[k].valid {
      assert !Full(lines);
    }
  }

  /** A hit touches only the line holding the tag: its recency becomes the
      clock and its frequency grows by one. */
  lemma SurveyHit(lines: seq<Line>, tag: int, clock: int, policy: int, i: nat)
    requires |lines| >= 1 && WellFormed(lines)
    requires i < |lines| && lines[i].valid && lines[i].tag == tag
    ensures SurveyOf(lines, tag, clock, policy)
         == Survey(Hit, lines[i := lines[i].(recent := clock, freq := lines[i].freq + 1)])
  {
    var k := FirstStop(lines, tag);
    assert k <= i;
    assert lines[k].valid;
  }

  /** A miss with room installs the tag in the first empty line, with the
      clock as recency and frequency 0; no other line changes. */
  lemma SurveyFill(lines: seq<Line>, tag: int, clock: int, policy: int)
    requires |lines| >= 1 && WellFormed(lines)
    requires !Holds(lines, tag) && !Full(lines)
    ensures var k := FirstStop(lines, tag);
      && k < |lines| && !lines[k].valid
      && (forall j :: 0 <= j < k ==> lines[j].valid)
      && SurveyOf(lines, tag, clock, policy) == Survey(Miss, lines[k := Line(true, tag, clock, 0)])
  {
  }

  /** A miss in a full set overwrites the eviction victim with the tag, the
      clock as recency and frequency 0; no other line changes. */
  lemma SurveyEvict(lines: seq<Line>, tag: int, clock: int, policy: int)
    requires |lines| >= 1 && WellFormed(lines)
    requires !Holds(lines, tag) && Full(lines)
    ensures var v := EvictionIndex(lines, clock, policy);
      SurveyOf(lines, tag, clock, policy) == Survey(Evict, lines[v := Line(true, tag, clock, 0)])
  {
  }

  /** A survey keeps a set well formed and leaves the tag in a valid line. */
  lemma SurveyKeepsShape(lines: seq<Line>, tag: int, clock: int, policy: int)
    requires |lines| >= 1 && WellFormed(lines)
    ensures var r := SurveyOf(lines, tag, clock, policy);
      WellFormed(r.lines) && Holds(r.lines, tag)
  {
    var r := SurveyOf(lines, tag, clock, policy);
    SurveyOutcome(lines, tag, clock, policy);
    if Holds(lines, tag) {
      var i :| 0 <= i < |lines| && lines[i].valid && lines[i].tag == tag;
      SurveyHit(lines, tag, clock, policy, i);
      assert r.lines[i].valid && r.lines[i].tag == tag;
    } else if !Full(lines) {
      SurveyFill(lines, tag, clock, policy);
      var k := FirstStop(lines, tag);
      assert r.lines[k].valid && r.lines[k].tag == tag;
    } else {
      SurveyEvict(lines, tag, clock, policy);
      var v := EvictionIndex(lines, clock, policy);
      assert r.lines[v].valid && r.lines[v].tag == tag;
    }
  }

  /** The valid lines of a well-formed set are exactly its first ValidCount lines. */
  lemma {:induction false} ValidPrefix(lines: seq<Line>)
    requires WellFormed(lines)
    ensures forall j :: 0 <= j < |lines| ==> (lines[j].valid <==> j < ValidCount(lines))
  {
    if lines != [] {
      var init := lines[..|lines| - 1];
      assert WellFormed(init);
      ValidPrefix(init);
      if lines[|lines| - 1].valid {
        assert forall j :: 0 <= j < |init| ==> lines[j].valid;
      }
    }
  }

  /** A set whose valid lines are exactly its first c lines has c valid lines. */
  lemma {:induction false} CountOfPrefix(lines: seq<Line>, c: nat)
    requires c <= |lines|
    requires forall j :: 0 <= j < |lines| ==> (lines[j].valid <==> j < c)
    ensures ValidCount(lines) == c
  {
    if lines != [] {
      var init := lines[..|lines| - 1];
      if c == |lines| {
        CountOfPrefix(init, c - 1);
      } else {
        CountOfPrefix(init, c);
      }
    }
  }

  /** A survey of a well-formed set adds a valid line exactly on a plain miss,
      so a set never holds more valid lines than it has lines. */
  lemma SurveyValidCount(lines: seq<Line>, tag: int, clock: int, policy: int)
    requires |lines| >= 1 && WellFormed(lines)
    ensures var r := SurveyOf(lines, tag, clock, policy);
      ValidCount(r.lines) == ValidCount(lines) + (if r.outcome == Miss then 1 else 0)
  {
    var r := SurveyOf(lines, tag, clock, policy);
    var before := ValidCount(lines);
    ValidPrefix(lines);
    var k := FirstStop(lines, tag);
    if r.outcome == Miss {
      assert k < |lines| && !lines[k].valid;
      assert before <= k;
      if before < |lines| {
        assert !lines[before].valid;
      }
      assert k == before;
      assert forall j :: 0 <= j < |lines| ==> (r.lines[j].valid <==> j < before + 1);
      CountOfPrefix(r.lines, before + 1);
    } else {
      assert forall j :: 0 <= j < |lines| ==> r.lines[j].valid == lines[j].valid;
      CountOfPrefix(r.lines, before);
    }
  }

  /** The second half of an M: surveying the same tag again always hits. */
  lemma RepeatSurveyHits(lines: seq<Line>, tag: int, clock: int, clock': int, policy: int)
    requires |lines| >= 1 && WellFormed(lines)
    ensures var first := SurveyOf(lines, tag, clock, policy);
      SurveyOf(first.lines, tag, clock', policy).outcome == Hit
  {
    var first := SurveyOf(lines, tag, clock, policy);
    SurveyKeepsShape(lines, tag, clock, policy);
    SurveyOutcome(first.lines, tag, clock', policy);
  }

  // ---------------------------------------------------------------------------
  // The victim choice as written

  /** Two lines of equal frequency: LFU gives up the first, although the
      second is the less recently used. */
  lemma LfuTieKeepsFirst()
    ensures var lines := [Line(true, 1, 5, 1), Line(true, 2, 3, 1)];
      EvictionIndex(lines, 10, LFU) == 0 && lines[1].recent < lines[0].recent
  {
  }

  /** Both minima start at the clock: when no frequency is below it, LFU gives
      up line 0 whatever the frequencies are. */
  lemma LfuStartsAtClock()
    ensures var lines := [Line(true, 1, 1, 5), Line(true, 2, 2, 3)];
      EvictionIndex(lines, 3, LFU) == 0 && lines[1].freq < lines[0].freq
  {
  }
}

