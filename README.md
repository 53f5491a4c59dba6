# Set-associative cache simulator, modelled in Dafny

csim.c replays a memory trace through a cache. The cache has 2^s sets of E
lines each and blocks of 2^b bytes, and it counts hits, misses and evictions.
This project models the core of the simulator:

- the line and counter records;
- `buildCache`, which fills every set with empty lines;
- `sameTag`, `findTag` and `findSet`, which split an address into tag and set index;
- `surveySet`, one forward scan of a set that hits, fills the first empty line,
  or evicts an LRU or LFU victim;
- `cacheSim`, which surveys a set once, or twice for a modify (`M`);
- main's replay loop, which advances a clock by one per accepted trace record.

The model is in five modules:

- `CacheLine` (cache_line.dfy): the `Line` record (valid, tag, recent, freq),
  the `Outcome` of one survey, the `Stats` counters, `SameTag`, and the
  counter update `Tally`.
- `AddressDecoder` (address_decoder.dfy): `FindTag` and `FindSet` on an
  unsigned 64-bit address. Shifts are divisions by powers of two and masks are
  remainders. Lemmas show that tag and set index are the block number split at
  bit `s`.
- `SetSurvey` (set_survey.dfy): what one survey does, stated on values.
  - `FirstStop` is where the scan stops.
  - `Track` and `Scan` are the running LRU/LFU minima, step by step as written.
  - `EvictionIndex` is the victim.
  - `SurveyOf` is the whole survey.
  - Lemmas characterise the three outcomes, the victim choice, and the shape
    every set keeps: valid lines form a prefix, empty lines are untouched, and
    valid tags are distinct.
- `CacheModel` (cache_model.dfy): the whole cache.
  - As a value: `InitialState`, `Access` and `CacheSimOf`.
  - In place: `SurveySet` is the loop of `surveySet`, run over an `array` of
    lines and a `CacheStats` object updated through a reference. The class
    `Cache` holds the array of set arrays that `buildCache` allocates.
  - Each method is proved to produce exactly the value-level function of the
    state it started from.
- `TraceReplay` (trace_replay.dfy): the replay loop.
  - `ReplayFrom` replays a parsed trace on values.
  - `Simulate` is main's loop over a `Cache` object, proved equal to
    `ReplayFrom` from the initial cache.
  - Accounting lemmas cover the whole replay, and worked traces pin down
    concrete behaviour.

Behaviour kept exactly as the code has it:

- **LFU tie-break never fires.** At csim.c:291-297, a valid line with the same
  frequency as the current LFU minimum replaces the LFU index only if its
  recency is below `minLRU`. But lines 279-284 have just lowered `minLRU` to at
  most that same recency. So the LFU victim is the first line of least
  frequency, not the least recent among equals (`SetSurvey.Track`,
  `SetSurvey.LfuTieKeepsFirst`).
- **Both minima start at the clock value** (csim.c:258-261). If no line's
  recency (LRU) or frequency (LFU) is below the clock, the victim is line 0
  (`SetSurvey.ScanLru`, `SetSurvey.ScanLfu`, `SetSurvey.LfuStartsAtClock`).
- **Unknown policy number.** A policy number other than 0 or 1 evicts line 0
  (csim.c:317-324).
- **At least one line per set.** A set with no lines would evict index 0 of an
  empty array, so the model requires `perset >= 1`.
- **The clock advance of an M is local to `cacheSim`** (csim.c:400). The
  second survey of an M uses clock + 1, but main's clock is not advanced. The
  next record therefore uses the same value again (`TraceReplay.ModifyClockIsShared`).
  The comment at that line ("addtional operation means clock increment")
  reads as if the M was meant to advance the simulation clock; the model
  follows the code, where the increment is lost on return.

## Model

| member | source | states |
|---|---|---|
| `CacheLine.SameTag` | csim.c:229-236 | returns 1 exactly when the tags are equal, 0 otherwise |
| `CacheLine.Tally` | csim.c:272-329 | one survey adds exactly one hit or miss; hits grow exactly on a hit, evictions exactly on an eviction, and every eviction is also a miss |
| `AddressDecoder.FindTag` | csim.c:344-350 | the tag has at most 64 - s - b bits |
| `AddressDecoder.FindSet` | csim.c:362-368 | the set index is below 2^s, so it names one of the allocated sets |
| `AddressDecoder.DecodeSplitsBlockNumber` | csim.c:346-348 | for a 64-bit address, tag * 2^s + set index is the block number (address >> b) |
| `AddressDecoder.DecodeDeterminesBlock` | csim.c:364-366 | two addresses have the same tag and set index if and only if they lie in the same block |
| `AddressDecoder.DecodeWithoutSetOrBlockBits` | csim.c:454-455 | with s = b = 0 the tag is the whole address and the set index is 0 |
| `SetSurvey.FirstStop` | csim.c:264-311 | the scan stops at the first line that is empty or holds the tag; every line before it is valid with another tag |
| `SetSurvey.Track` | csim.c:279-298 | one step lowers each minimum or keeps it; the LFU index moves only on a strictly smaller frequency, so the tie-break never changes it |
| `SetSurvey.Scan` | csim.c:258-261 | both minima start at the clock and never exceed it; both indices start at 0 and stay within the lines scanned |
| `SetSurvey.EvictionIndex` | csim.c:314-324 | the victim index is a line of the set |
| `SetSurvey.SurveyOf` | csim.c:254-332 | a survey keeps the number of lines of the set |
| `SetSurvey.ScanLru` | csim.c:279-284 | the LRU candidate is the first line of least recency when some recency is below the clock, else line 0 with the clock as minimum |
| `SetSurvey.ScanLfu` | csim.c:285-298 | the LFU candidate is the first line of least frequency when some frequency is below the clock, else line 0 with the clock as minimum |
| `SetSurvey.EvictionVictim` | csim.c:317-324 | LRU evicts the first least-recent line, LFU the first least-frequent line (each only when its minimum is below the clock, else line 0), and any other policy evicts line 0 |
| `SetSurvey.ValidCount` | csim.c:302 | a set never has more valid lines than lines |
| `SetSurvey.SurveyOutcome` | csim.c:267-314 | on a well-formed set: hit if and only if a valid line holds the tag; plain miss if and only if no line holds it and one is empty; eviction if and only if no line holds it and all are valid |
| `SetSurvey.SurveyHit` | csim.c:269-277 | a hit sets that line's recency to the clock, adds one to its frequency, and changes nothing else |
| `SetSurvey.SurveyFill` | csim.c:300-309 | a miss with room writes the tag, with the clock as recency and frequency 0, into the first empty line, after only valid lines; nothing else changes |
| `SetSurvey.SurveyEvict` | csim.c:314-331 | a miss in a full set overwrites the victim with the tag, the clock as recency and frequency 0; nothing else changes |
| `SetSurvey.SurveyKeepsShape` | csim.c:254-332 | after a survey the valid lines still form a prefix, empty lines are untouched, valid tags are distinct, and a valid line holds the tag |
| `SetSurvey.ValidPrefix` | csim.c:300-309 | in a well-formed set the valid lines are exactly the first ValidCount lines |
| `SetSurvey.CountOfPrefix` | csim.c:300-309 | a set whose valid lines are its first c lines has exactly c valid lines |
| `SetSurvey.SurveyValidCount` | csim.c:302-305 | a survey adds one valid line on a plain miss and none otherwise |
| `SetSurvey.RepeatSurveyHits` | csim.c:398-401 | surveying the same tag a second time, at any clock, is a hit |
| `SetSurvey.LfuTieKeepsFirst` | csim.c:291-297 | with two lines of equal frequency, LFU evicts line 0 although line 1 is less recently used |
| `SetSurvey.LfuStartsAtClock` | csim.c:259 | when no frequency is below the clock, LFU evicts line 0 although line 1 is less frequently used |
| `CacheModel.InitialState` | csim.c:194-217 | numSets sets of perset lines, every line the empty line {0, 0, 0, 0}, each set well formed, and zero counters |
| `CacheModel.Access` | csim.c:392 | one survey changes only the addressed set, keeps its size, and adds one hit or miss |
| `CacheModel.CacheSimOf` | csim.c:386-411 | one record changes only its set and yields two outcomes for an M and one for anything else |
| `CacheModel.CacheSimAccounting` | csim.c:8-12 | one record keeps every set well formed, adds one hit or miss per survey, evicts at most once, and the second survey of an M always hits |
| `CacheModel.CacheStats.constructor` | csim.c:420 | the counters start at zero |
| `CacheModel.SurveySet` | csim.c:254-332 | the in-place scan leaves the set equal to SurveyOf of the set it started from, returns that outcome, and updates the counters by Tally |
| `CacheModel.Cache.constructor` | csim.c:194-217 | allocates numSets distinct fresh arrays of perset lines whose value is InitialState |
| `CacheModel.Cache.CacheSim` | csim.c:386-411 | the cache after the call, and the outcomes, are exactly CacheSimOf of the state before, with the M's clock advance local to the call |
| `TraceReplay.SetIndexInRange` | csim.c:434-435 | for a cache of the 2^s sets main allocates, every decoded set index names one of its sets |
| `TraceReplay.SubAccesses` | csim.c:398 | a trace causes between one and two surveys per record |
| `TraceReplay.Advance` | csim.c:451-460 | one record keeps the number of sets and lines |
| `TraceReplay.ReplayFrom` | csim.c:446-462 | a replay keeps 2^s sets of perset lines |
| `TraceReplay.ReplayAccounting` | csim.c:446-462 | a replay keeps every set well formed, adds exactly one hit or miss per survey, and adds at most one eviction per record |
| `TraceReplay.ReplayAppend` | csim.c:446-462 | replaying t1 then t2 from the clock after t1 is replaying t1 + t2 |
| `TraceReplay.Simulate` | csim.c:418-462 | the counters main ends with are those of ReplayFrom from the built cache with clock 0; hits + misses is the number of surveys, evictions are at most the misses and at most the records, and an empty trace gives zeros |
| `TraceReplay.DirectMappedScenario` | csim.c:314-331 | one set of one line, addresses 0x0, 0x10, 0x0: three misses, two of them evicting |
| `TraceReplay.ModifyOnEmptyScenario` | csim.c:398-406 | an M on an empty cache is a miss without eviction followed by a hit |
| `TraceReplay.SingleSetAdvance` | csim.c:451-460 | with no set-index or block-offset bits, a record surveys the only set with its whole address as tag, twice for an M at clock and clock + 1 |
| `TraceReplay.TwoLineWarmUp` | csim.c:264-311 | for any distinct tags a, b: a, b, a on an empty two-line set fill line 0 and line 1, then hit line 0 |
| `TraceReplay.LruEvict` | csim.c:279-284 | LRU on the set [a at recency 3, b at recency 2]: a new tag c replaces b |
| `TraceReplay.LruScenario` | csim.c:317-320 | LRU on two lines, any distinct tags a, b, a, c: c replaces b, the least recently used |
| `TraceReplay.LfuHitThenEvict` | csim.c:285-290 | LFU: a hits again, then a new tag c replaces b, whose frequency is the lower |
| `TraceReplay.LfuScenario` | csim.c:321-324 | LFU on two lines, any distinct tags a, b, a, a, c: c replaces b, the less used |
| `TraceReplay.ModifyClockIsShared` | csim.c:400 | for any distinct tags, after M a then L b, the second half of the M and the next record carry the same clock value 2 |

## Left out

- Command-line parsing, help text and argument printing (csim.c:64-183): the
  model starts from an already resolved `Config`.
- Reading the trace file (`fopen`, `fgets`, `sscanf`) and the test that keeps
  only lines starting with a space: a trace is a sequence of already parsed
  `Record`s, one per accepted line. A missing file and its exit code are not
  modelled.
- The size field of a trace line is read but never used by the simulator. The
  model does not carry it.
- Verbose output (`printf` of the record and of "hit", "miss", "evict"): the
  model returns the `Outcome`s instead.
- `printSummary` comes from cachelab.h, which is not part of this model. The
  model returns the `Stats` it would print.
- `malloc` and `free`: allocation is Dafny's `new`, and release is not modelled.
- Integer widths: counters, clock, recency and frequency are unbounded
  integers. The model does not capture overflow of C `int`/`long` in very long
  traces.
- AddressDecoder.FindSet: models the intended unsigned extraction of the set
  bits. The C mask is built in `int` with `~0 << sbits`, which is undefined
  for widths of 32 bits or more.
- AddressDecoder.FindTag: the C mask `~((~0) << tbits)` is built from a
  32-bit `int`, so the shift is undefined for tbits >= 32, which is every
  ordinary configuration (s = b = 4 gives tbits = 56); where the shift count is
  taken mod 32, only tbits mod 32 tag bits survive and addresses differing
  above them share a tag. The model keeps all 64 - s - b tag bits, the
  intended extraction. The arithmetic right shift of a negative `long`
  address is not modelled either: addresses are naturals, and the decoding
  lemmas require them below 2^64.
