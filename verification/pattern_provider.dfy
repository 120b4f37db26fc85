/**
  The rhythm pattern generator of src/pattern-provider.ts.

  A pattern is one bar of sixteen sixteenth-note steps, each 0 (rest) or 1 (hit).
  For a pattern number the generator tries up to ten pseudo-random candidates and
  keeps the first one whose circular runs are short enough; if none is, it falls
  back to the alternating pattern. The provider caches the pattern of the current
  pattern number under the key (pattern number, rhythm seed).

  The floating-point hash `seededRandom` is not modelled: the provider is given an
  arbitrary function `hash(rhythmSeed, attemptSeed, index)`, and everything proved
  here holds whatever its values are.
*/
module Patterns {

  /** Steps in a pattern: one bar of sixteenth notes. */
  const PatternLength := 16
  /** Longest run of 1s a valid pattern may contain, wrap-around included. */
  const MaxConsecutiveOnes := 3
  /** Longest run of 0s a valid pattern may contain, wrap-around included. */
  const MaxConsecutiveZeros := 4
  /** How many positions before index 0 the validity scan starts: the larger bound. */
  const MaxConsecutive := if MaxConsecutiveOnes > MaxConsecutiveZeros then MaxConsecutiveOnes else MaxConsecutiveZeros
  /** Spreads the attempt seeds of one pattern number apart (a large prime). */
  const AttemptSeedMultiplier := 31337
  /** Candidates tried before falling back to the alternating pattern. */
  const MaxAttempts := 10

  /** `seededRandom`: (rhythm seed, attempt seed, position) to a value in [0, 1). */
  type Hash = (real, int, int) -> real

  /** Sixteen steps, each 0 or 1. */
  predicate IsPattern(p: seq<int>)
  {
    |p| == PatternLength && forall i :: 0 <= i < |p| ==> p[i] == 0 || p[i] == 1
  }

  // ---------------------------------------------------------------------------
  // Validity, stated circularly

  /** The value j steps after position s, reading the pattern as a loop. */
  function Circ(p: seq<int>, s: int, j: int): int
    requires |p| > 0
  {
    p[(s + j) % |p|]
  }

  /** A run of more than MaxConsecutiveOnes 1s starts at position s. */
  predicate OnesRunAt(p: seq<int>, s: int)
    requires |p| > 0
  {
    forall j :: 0 <= j <= MaxConsecutiveOnes ==> Circ(p, s, j) == 1
  }

  /** A run of more than MaxConsecutiveZeros 0s starts at position s. */
  predicate ZerosRunAt(p: seq<int>, s: int)
    requires |p| > 0
  {
    forall j :: 0 <= j <= MaxConsecutiveZeros ==> Circ(p, s, j) == 0
  }

  /** The pattern, looped, has no run of 1s longer than 3 and no run of 0s longer than 4. */
  predicate NoLongRuns(p: seq<int>)
    requires |p| > 0
  {
    forall s :: 0 <= s < |p| ==> !OnesRunAt(p, s) && !ZerosRunAt(p, s)
  }

  // ---------------------------------------------------------------------------
  // Validity, stated as the scan `isValid` performs

  /** The values `isValid` visits, in order: the last MaxConsecutive positions
      (index -4 up to -1, wrapped), then the whole pattern. */
  function Scan(p: seq<int>): (w: seq<int>)
    requires |p| == PatternLength
    ensures |w| == |p| + MaxConsecutive
    ensures forall k :: 0 <= k < |w| ==> w[k] == Circ(p, k, -MaxConsecutive)
  {
    p[|p| - MaxConsecutive..] + p
  }

  /** Length of the run of v that ends just before index k of w. */
  function RunBefore(w: seq<int>, v: int, k: nat): nat
    requires k <= |w|
  {
    if k == 0 || w[k - 1] != v then 0 else 1 + RunBefore(w, v, k - 1)
  }

  /** No prefix of the scan ends in too long a run: the scan never trips a counter. */
  predicate ScanBounded(w: seq<int>)
  {
    forall k :: 0 <= k <= |w| ==>
      RunBefore(w, 1, k) <= MaxConsecutiveOnes && RunBefore(w, 0, k) <= MaxConsecutiveZeros
  }

  /** A run of length m before k consists of m copies of v. */
  lemma {:induction false} RunBeforeContents(w: seq<int>, v: int, k: nat, m: nat)
    requires k <= |w| && m <= RunBefore(w, v, k)
    ensures m <= k
    ensures forall j :: k - m <= j < k ==> w[j] == v
  {
    if m > 0 {
      RunBeforeContents(w, v, k - 1, m - 1);
    }
  }

  /** m copies of v just before k make a run of length at least m. */
  lemma {:induction false} RunBeforeAtLeast(w: seq<int>, v: int, k: nat, m: nat)
    requires m <= k <= |w|
    requires forall j :: k - m <= j < k ==> w[j] == v
    ensures RunBefore(w, v, k) >= m
  {
    if m > 0 {
      RunBeforeAtLeast(w, v, k - 1, m - 1);
    }
  }

  /** n equal values at circular positions s, s+1, ... make a run of n in the scan,
      ending at scan index (s + MaxConsecutive) % |p| + n. */
  lemma CircularRunInScan(p: seq<int>, s: int, v: int, n: nat) returns (k: nat)
    requires |p| == PatternLength && 0 <= s < |p| && n <= MaxConsecutive + 1
    requires forall j :: 0 <= j < n ==> Circ(p, s, j) == v
    ensures k <= |Scan(p)| && RunBefore(Scan(p), v, k) >= n
  {
    var w := Scan(p);
    var m0 := (s + MaxConsecutive) % |p|;
    k := m0 + n;
    forall i | m0 <= i < k ensures w[i] == v {
      assert (i - MaxConsecutive) % 16 == (s + (i - m0)) % 16;
      assert Circ(p, s, i - m0) == v;
    }
    RunBeforeAtLeast(w, v, k, n);
  }

  /** Positions that differ by a whole turn name the same step. */
  lemma CircShift(p: seq<int>, a: int, b: int)
    requires |p| == PatternLength && (a == b || a == b + |p| || a == b - |p|)
    ensures p[a % |p|] == p[b % |p|]
  {
  }

  /** A run of n in the scan is a run of n at some circular position of the pattern. */
  lemma ScanRunIsCircular(p: seq<int>, k: nat, v: int, n: nat) returns (s: int)
    requires |p| == PatternLength && k <= |Scan(p)| && RunBefore(Scan(p), v, k) >= n
    ensures 0 <= s < |p|
    ensures forall j :: 0 <= j < n ==> Circ(p, s, j) == v
  {
    var w := Scan(p);
    RunBeforeContents(w, v, k, n);
    var d := k - n - MaxConsecutive;
    s := if d < 0 then d + |p| else if d < |p| then d else d - |p|;
    forall j | 0 <= j < n ensures Circ(p, s, j) == v {
      assert w[k - n + j] == v;
      CircShift(p, d + j, s + j);
    }
  }

  /** The scan of `isValid`, which starts four positions early, sees exactly the
      circular runs: it never trips iff the looped pattern has no long run. */
  lemma ScanBoundedIffNoLongRuns(p: seq<int>)
    requires |p| == PatternLength
    ensures ScanBounded(Scan(p)) <==> NoLongRuns(p)
  {
    var w := Scan(p);
    if ScanBounded(w) {
      forall s | 0 <= s < |p| ensures !OnesRunAt(p, s) && !ZerosRunAt(p, s) {
        if OnesRunAt(p, s) {
          var k := CircularRunInScan(p, s, 1, MaxConsecutiveOnes + 1);
          assert false;
        }
        if ZerosRunAt(p, s) {
          var k := CircularRunInScan(p, s, 0, MaxConsecutiveZeros + 1);
          assert false;
        }
      }
    } else {
      var k :| 0 <= k <= |w| && !(RunBefore(w, 1, k) <= MaxConsecutiveOnes && RunBefore(w, 0, k) <= MaxConsecutiveZeros);
      if RunBefore(w, 1, k) > MaxConsecutiveOnes {
        var s := ScanRunIsCircular(p, k, 1, MaxConsecutiveOnes + 1);
        assert OnesRunAt(p, s);
      } else {
        var s := ScanRunIsCircular(p, k, 0, MaxConsecutiveZeros + 1);
        assert ZerosRunAt(p, s);
      }
    }
  }

  /** `isValid`: scans from four positions before index 0 to the end, counting the
      current run of 1s and of 0s, and rejects as soon as either is too long. */
  method IsValid(pattern: seq<int>) returns (valid: bool)
    requires |pattern| == PatternLength
    ensures valid <==> NoLongRuns(pattern)
  {
    var len := |pattern|;
    ghost var w := Scan(pattern);
    ScanBoundedIffNoLongRuns(pattern);
    var consecutiveOnes, consecutiveZeros := 0, 0;
    for i := -MaxConsecutive to len
      invariant consecutiveOnes == RunBefore(w, 1, i + MaxConsecutive)
      invariant consecutiveZeros == RunBefore(w, 0, i + MaxConsecutive)
      invariant forall k :: 0 <= k <= i + MaxConsecutive ==>
        RunBefore(w, 1, k) <= MaxConsecutiveOnes && RunBefore(w, 0, k) <= MaxConsecutiveZeros
    {
      var value := pattern[(i + len) % len];
      assert value == w[i + MaxConsecutive];
      consecutiveOnes := if value == 1 then consecutiveOnes + 1 else 0;
      consecutiveZeros := if value == 0 then consecutiveZeros + 1 else 0;
      if consecutiveOnes > MaxConsecutiveOnes {
        assert RunBefore(w, 1, i + MaxConsecutive + 1) > MaxConsecutiveOnes;
        return false;
      }
      if consecutiveZeros > MaxConsecutiveZeros {
        assert RunBefore(w, 0, i + MaxConsecutive + 1) > MaxConsecutiveZeros;
        return false;
      }
    }
    return true;
  }

  /** A pattern of sixteen equal steps is rejected: looped, its run never ends. */
  lemma ConstantPatternRejected(p: seq<int>)
    requires IsPattern(p)
    requires forall i :: 0 <= i < |p| ==> p[i] == p[0]
    ensures !NoLongRuns(p)
  {
    if p[0] == 1 {
      assert OnesRunAt(p, 0);
    } else {
      assert ZerosRunAt(p, 0);
    }
  }

  // ---------------------------------------------------------------------------
  // Generation

  /** The seed value of attempt number `attempt` for a pattern number. */
  function AttemptSeed(patternNumber: int, attempt: int): int
  {
    patternNumber + attempt * AttemptSeedMultiplier
  }

  /** The candidate of one attempt: position i is a hit when the hash exceeds 0.5. */
  function Candidate(hash: Hash, seed: real, attemptSeed: int): (p: seq<int>)
    ensures IsPattern(p)
    ensures forall i :: 0 <= i < PatternLength ==> (p[i] == 1 <==> hash(seed, attemptSeed, i) > 0.5)
  {
    seq(PatternLength, i => if hash(seed, attemptSeed, i) > 0.5 then 1 else 0)
  }

  /** The fallback pattern: 0 on even steps, 1 on odd ones. */
  function Alternating(): (p: seq<int>)
    ensures IsPattern(p)
    ensures forall i :: 0 <= i < |p| ==> p[i] == i % 2
  {
    seq(PatternLength, i => i % 2)
  }

  /** The fallback never has two equal neighbours, so it has no long run. */
  lemma AlternatingHasNoLongRuns()
    ensures NoLongRuns(Alternating())
  {
    var p := Alternating();
    forall s | 0 <= s < |p| ensures !OnesRunAt(p, s) && !ZerosRunAt(p, s) {
      assert Circ(p, s, 0) != Circ(p, s, 1);
    }
  }

  /** Attempts `attempt`, `attempt + 1`, ... of `getPattern`, then the fallback. */
  function GenerateFrom(hash: Hash, seed: real, patternNumber: int, attempt: nat): (p: seq<int>)
    requires attempt <= MaxAttempts
    ensures IsPattern(p)
    decreases MaxAttempts - attempt, 1
  {
    if attempt == MaxAttempts then Alternating() else Attempt(hash, seed, patternNumber, attempt)
  }

  /** Attempt number `attempt`: its candidate if valid, else the later attempts. */
  function Attempt(hash: Hash, seed: real, patternNumber: int, attempt: nat): (p: seq<int>)
    requires attempt < MaxAttempts
    ensures IsPattern(p)
    decreases MaxAttempts - attempt, 0
  {
    var candidate := Candidate(hash, seed, AttemptSeed(patternNumber, attempt));
    if NoLongRuns(candidate) then candidate else GenerateFrom(hash, seed, patternNumber, attempt + 1)
  }

  /** `getPattern(patternNumber)` under rhythm seed `seed`. */
  function Generated(hash: Hash, seed: real, patternNumber: int): seq<int>
  {
    GenerateFrom(hash, seed, patternNumber, 0)
  }

  /** Whatever attempt the search stops at, its pattern has no long circular run:
      either it passed the check or it is the fallback. */
  lemma {:induction false} GenerateFromHasNoLongRuns(hash: Hash, seed: real, patternNumber: int, attempt: nat)
    requires attempt <= MaxAttempts
    ensures NoLongRuns(GenerateFrom(hash, seed, patternNumber, attempt))
    decreases MaxAttempts - attempt
  {
    if attempt == MaxAttempts {
      AlternatingHasNoLongRuns();
    } else {
      var candidate := Candidate(hash, seed, AttemptSeed(patternNumber, attempt));
      assert GenerateFrom(hash, seed, patternNumber, attempt) ==
        if NoLongRuns(candidate) then candidate else GenerateFrom(hash, seed, patternNumber, attempt + 1);
      if !NoLongRuns(candidate) {
        GenerateFromHasNoLongRuns(hash, seed, patternNumber, attempt + 1);
      }
    }
  }

  /** Every generated pattern is sixteen 0/1 steps without a long circular run. */
  lemma GeneratedIsValidPattern(hash: Hash, seed: real, patternNumber: int)
    ensures IsPattern(Generated(hash, seed, patternNumber))
    ensures NoLongRuns(Generated(hash, seed, patternNumber))
  {
    GenerateFromHasNoLongRuns(hash, seed, patternNumber, 0);
  }

  /** Attempt a is the first valid one among attempts from..a. */
  predicate FirstValidFrom(hash: Hash, seed: real, patternNumber: int, from: nat, a: nat)
  {
    from <= a < MaxAttempts &&
    NoLongRuns(Candidate(hash, seed, AttemptSeed(patternNumber, a))) &&
    forall b :: from <= b < a ==> !NoLongRuns(Candidate(hash, seed, AttemptSeed(patternNumber, b)))
  }

  lemma {:induction false} GenerateFromIsFirstValid(hash: Hash, seed: real, patternNumber: int, from: nat)
    requires from <= MaxAttempts
    ensures forall a: nat :: FirstValidFrom(hash, seed, patternNumber, from, a) ==>
      GenerateFrom(hash, seed, patternNumber, from) == Candidate(hash, seed, AttemptSeed(patternNumber, a))
    ensures (forall b :: from <= b < MaxAttempts ==> !NoLongRuns(Candidate(hash, seed, AttemptSeed(patternNumber, b)))) ==>
      GenerateFrom(hash, seed, patternNumber, from) == Alternating()
    decreases MaxAttempts - from
  {
    if from < MaxAttempts {
      GenerateFromIsFirstValid(hash, seed, patternNumber, from + 1);
      forall a: nat | FirstValidFrom(hash, seed, patternNumber, from, a)
        ensures GenerateFrom(hash, seed, patternNumber, from) == Candidate(hash, seed, AttemptSeed(patternNumber, a))
      {
        if a > from {
          assert FirstValidFrom(hash, seed, patternNumber, from + 1, a);
        }
      }
    }
  }

  /** `getPattern` returns the candidate of the first attempt that passes `isValid`,
      and the alternating pattern when none of the ten does. */
  lemma GeneratedIsFirstValid(hash: Hash, seed: real, patternNumber: int)
    ensures forall a: nat :: FirstValidFrom(hash, seed, patternNumber, 0, a) ==>
      Generated(hash, seed, patternNumber) == Candidate(hash, seed, AttemptSeed(patternNumber, a))
    ensures (forall b :: 0 <= b < MaxAttempts ==> !NoLongRuns(Candidate(hash, seed, AttemptSeed(patternNumber, b)))) ==>
      Generated(hash, seed, patternNumber) == Alternating()
  {
    GenerateFromIsFirstValid(hash, seed, patternNumber, 0);
  }

  /** Two hashes agree on every value the ten attempts for this pattern number read. */
  predicate AgreeOnAttempts(h1: Hash, h2: Hash, seed: real, patternNumber: int)
  {
    forall a, i :: 0 <= a < MaxAttempts && 0 <= i < PatternLength ==>
      h1(seed, AttemptSeed(patternNumber, a), i) == h2(seed, AttemptSeed(patternNumber, a), i)
  }

  lemma {:induction false} GenerateFromDependsOnAttemptsOnly(h1: Hash, h2: Hash, seed: real, patternNumber: int, from: nat)
    requires from <= MaxAttempts
    requires AgreeOnAttempts(h1, h2, seed, patternNumber)
    ensures GenerateFrom(h1, seed, patternNumber, from) == GenerateFrom(h2, seed, patternNumber, from)
    decreases MaxAttempts - from
  {
    if from < MaxAttempts {
      var c1 := Candidate(h1, seed, AttemptSeed(patternNumber, from));
      var c2 := Candidate(h2, seed, AttemptSeed(patternNumber, from));
      assert c1 == c2 by {
        forall i | 0 <= i < PatternLength ensures c1[i] == c2[i] {
          assert h1(seed, AttemptSeed(patternNumber, from), i) == h2(seed, AttemptSeed(patternNumber, from), i);
        }
      }
      GenerateFromDependsOnAttemptsOnly(h1, h2, seed, patternNumber, from + 1);
    }
  }

  /** The pattern depends on the hash only through `seededRandom(i, patternNumber + attempt * 31337)`
      for the ten attempts and sixteen positions. */
  lemma GeneratedDependsOnAttemptsOnly(h1: Hash, h2: Hash, seed: real, patternNumber: int)
    requires AgreeOnAttempts(h1, h2, seed, patternNumber)
    ensures Generated(h1, seed, patternNumber) == Generated(h2, seed, patternNumber)
  {
    GenerateFromDependsOnAttemptsOnly(h1, h2, seed, patternNumber, 0);
  }

  // ---------------------------------------------------------------------------
  // The provider object

  class PatternProvider {
    /** The mixing function of `seededRandom`, fixed for the provider's lifetime. */
    const hash: Hash
    var rhythmSeed: real
    var currentPatternNumber: int
    /** Key of the single cache entry; -1 before the first fill. */
    var lastPatternNumber: int
    var lastRhythmSeed: real
    var cachedPattern: seq<int>
    /** The current pattern, as `getCurrentPattern` promises to return it. */
    ghost var currentPattern: seq<int>

    /** `currentPattern` is the pattern of the current number and seed, and the
        cache entry, once filled, holds the pattern of its own key. */
    ghost predicate Valid()
      reads this
    {
      currentPattern == Generated(hash, rhythmSeed, currentPatternNumber) &&
      0 <= currentPatternNumber &&
      -1 <= lastPatternNumber <= currentPatternNumber &&
      (lastPatternNumber >= 0 ==> cachedPattern == Generated(hash, lastRhythmSeed, lastPatternNumber))
    }

    /** `new PatternProvider()`; `seed` is the constructor's `Math.random()` draw. */
    constructor (hash: Hash, seed: real)
      ensures Valid()
      ensures this.hash == hash && rhythmSeed == seed && currentPatternNumber == 0
      ensures lastPatternNumber == -1 && lastRhythmSeed == -1.0 && cachedPattern == []
    {
      this.hash := hash;
      rhythmSeed := seed;
      currentPatternNumber := 0;
      lastPatternNumber := -1;
      lastRhythmSeed := -1.0;
      cachedPattern := [];
      currentPattern := Generated(hash, seed, 0);
    }

    /** `newSeed`: `seed` stands for the `Math.random()` draw. */
    method NewSeed(seed: real)
      requires Valid()
      modifies this`rhythmSeed, this`currentPattern
      ensures Valid() && rhythmSeed == seed
    {
      rhythmSeed := seed;
      currentPattern := Generated(hash, seed, currentPatternNumber);
    }

    /** `getPattern`: up to ten attempts with an early return, then the fallback. */
    method GetPattern(patternNumber: int) returns (pattern: seq<int>)
      ensures pattern == Generated(hash, rhythmSeed, patternNumber)
      ensures IsPattern(pattern) && NoLongRuns(pattern)
    {
      GeneratedIsValidPattern(hash, rhythmSeed, patternNumber);
      for attempt := 0 to MaxAttempts
        invariant GenerateFrom(hash, rhythmSeed, patternNumber, attempt) == Generated(hash, rhythmSeed, patternNumber)
      {
        var attemptSeed := patternNumber + attempt * AttemptSeedMultiplier;
        pattern := Candidate(hash, rhythmSeed, attemptSeed);
        var ok := IsValid(pattern);
        if ok {
          return;
        }
      }
      pattern := Alternating();
    }

    /** `getCurrentPattern`: a cache hit returns the cached pattern and changes nothing;
        a miss regenerates and re-keys the cache. Either way the result is the current pattern. */
    method GetCurrentPattern() returns (pattern: seq<int>)
      requires Valid()
      modifies this`lastPatternNumber, this`lastRhythmSeed, this`cachedPattern
      ensures Valid()
      ensures pattern == currentPattern
      ensures IsPattern(pattern) && NoLongRuns(pattern)
      ensures old(lastPatternNumber == currentPatternNumber && lastRhythmSeed == rhythmSeed) ==>
        unchanged(this) && pattern == old(cachedPattern)
      ensures !old(lastPatternNumber == currentPatternNumber && lastRhythmSeed == rhythmSeed) ==>
        lastPatternNumber == currentPatternNumber && lastRhythmSeed == rhythmSeed && cachedPattern == pattern
    {
      if lastPatternNumber == currentPatternNumber && lastRhythmSeed == rhythmSeed {
        GeneratedIsValidPattern(hash, rhythmSeed, currentPatternNumber);
        return cachedPattern;
      }
      var newPattern := GetPattern(currentPatternNumber);
      lastPatternNumber := currentPatternNumber;
      lastRhythmSeed := rhythmSeed;
      cachedPattern := newPattern;
      return newPattern;
    }

    /** `getNextPattern`: the pattern of the next number, computed without touching the cache. */
    method GetNextPattern() returns (pattern: seq<int>)
      ensures pattern == Generated(hash, rhythmSeed, currentPatternNumber + 1)
      ensures IsPattern(pattern) && NoLongRuns(pattern)
    {
      pattern := GetPattern(currentPatternNumber + 1);
    }

    /** `advancePattern`: the next pattern number; the cache is left as it is, and
        its key no longer matches, so the next `GetCurrentPattern` regenerates. */
    method AdvancePattern()
      requires Valid()
      modifies this`currentPatternNumber, this`currentPattern
      ensures Valid()
      ensures currentPatternNumber == old(currentPatternNumber) + 1
      ensures lastPatternNumber != currentPatternNumber
    {
      currentPatternNumber := currentPatternNumber + 1;
      currentPattern := Generated(hash, rhythmSeed, currentPatternNumber);
    }
  }
}
