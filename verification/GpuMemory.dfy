/** The lock-free memory counters of one GPU (src/memory/gpu_memory_metrics.cpp): each atomic
read-modify-write is one step, a relaxed load may return an outdated value, and a weak
compare-exchange may fail spuriously. The theorems hold in every interleaving. */
module GpuMemory {

  const WORD: int := 0x1_0000_0000_0000_0000

  /** Counters are 64-bit words: every addition and subtraction wraps around. */
  function Wrap(x: int): nat
  {
    x % WORD
  }

  type ThreadId = nat

  /** Where a thread is inside `record_allocation` or `record_deallocation`. */
  datatype Pc =
    | Counting(bytes: nat)
    | Totalling(bytes: nat)
    | Adding(bytes: nat)
    | Loading(mine: nat)
    | Comparing(mine: nat, seen: nat)
    | Freeing(bytes: nat)
    | Subtracting(bytes: nat)

  /** The five 64-bit counters and the threads inside a call, then history: the calls begun so
      far, the bytes they passed, and the largest value `current` had right after an addition. */
  datatype State = State(allocations: nat, deallocations: nat, total: nat, current: nat, peak: nat,
                         threads: map<ThreadId, Pc>, allocationCalls: nat, deallocationCalls: nat,
                         asked: nat, returned: nat, highest: nat)

  predicate Init(s: State)
  {
    s == State(0, 0, 0, 0, 0, map[], 0, 0, 0, 0, 0)
  }

  function At(s: State, t: ThreadId, pc: Pc): State
  {
    s.(threads := s.threads[t := pc])
  }

  function Leave(s: State, t: ThreadId): State
  {
    s.(threads := s.threads - {t})
  }

  ghost predicate Begin(s: State, s': State, t: ThreadId)
  {
    t !in s.threads && exists bytes: nat ::
      || s' == At(s, t, Counting(bytes)).(allocationCalls := s.allocationCalls + 1, asked := s.asked + bytes)
      || s' == At(s, t, Freeing(bytes)).(deallocationCalls := s.deallocationCalls + 1, returned := s.returned + bytes)
  }

  predicate CountAllocation(s: State, s': State, t: ThreadId)
  {
    && t in s.threads && s.threads[t].Counting?
    && s' == At(s, t, Totalling(s.threads[t].bytes)).(allocations := Wrap(s.allocations + 1))
  }

  predicate AddTotal(s: State, s': State, t: ThreadId)
  {
    && t in s.threads && s.threads[t].Totalling?
    && s' == At(s, t, Adding(s.threads[t].bytes)).(total := Wrap(s.total + s.threads[t].bytes))
  }

  predicate AddCurrent(s: State, s': State, t: ThreadId)
  {
    && t in s.threads && s.threads[t].Adding?
    && var mine := Wrap(s.current + s.threads[t].bytes);
       s' == At(s, t, Loading(mine)).(current := mine, highest := if mine > s.highest then mine else s.highest)
  }

  /** A relaxed load: any value the peak has had, none of which exceeds the present one. */
  ghost predicate LoadPeak(s: State, s': State, t: ThreadId)
  {
    t in s.threads && s.threads[t].Loading? && exists seen: nat :: seen <= s.peak && s' == At(s, t, Comparing(s.threads[t].mine, seen))
  }

  /** One turn of the retry loop: leave if the peak seen is high enough; otherwise try to
      exchange, which succeeds or fails if the peak is still the one seen, and fails if not. */
  predicate TryRaise(s: State, s': State, t: ThreadId)
  {
    && t in s.threads && s.threads[t].Comparing?
    && var pc := s.threads[t];
       if pc.mine <= pc.seen then s' == Leave(s, t)
       else
         || (s.peak == pc.seen && s' == Leave(s, t).(peak := pc.mine))
         || s' == At(s, t, Comparing(pc.mine, s.peak))
  }

  predicate CountDeallocation(s: State, s': State, t: ThreadId)
  {
    && t in s.threads && s.threads[t].Freeing?
    && s' == At(s, t, Subtracting(s.threads[t].bytes)).(deallocations := Wrap(s.deallocations + 1))
  }

  predicate SubtractCurrent(s: State, s': State, t: ThreadId)
  {
    && t in s.threads && s.threads[t].Subtracting?
    && s' == Leave(s, t).(current := Wrap(s.current - s.threads[t].bytes))
  }

  ghost predicate Step(s: State, s': State, t: ThreadId)
  {
    || Begin(s, s', t) || CountAllocation(s, s', t) || AddTotal(s, s', t) || AddCurrent(s, s', t)
    || LoadPeak(s, s', t) || TryRaise(s, s', t) || CountDeallocation(s, s', t) || SubtractCurrent(s, s', t)
  }

  // ---------------------------------------------------------------------------
  // The invariant
  // ---------------------------------------------------------------------------

  predicate Raising(pc: Pc)
  {
    pc.Loading? || pc.Comparing?
  }

  /** Every value a thread may still publish was reached, and what it saw was a peak. */
  ghost predicate ThreadOk(s: State, pc: Pc)
  {
    (Raising(pc) ==> pc.mine <= s.highest) && (pc.Comparing? ==> pc.seen <= s.peak)
  }

  /** The highest value is published, or some thread is on its way to publish it. */
  ghost predicate Published(s: State)
  {
    s.highest <= s.peak || exists t :: t in s.threads && Raising(s.threads[t]) && s.threads[t].mine == s.highest
  }

  ghost predicate Inv(s: State)
  {
    && s.peak <= s.highest && Published(s)
    && (forall t :: t in s.threads ==> ThreadOk(s, s.threads[t]))
  }

  lemma RaiseKeeps(s: State, s': State, t: ThreadId)
    requires Inv(s) && TryRaise(s, s', t)
    ensures Inv(s')
  {
    var pc := s.threads[t];
    assert ThreadOk(s, pc);
    if s.highest > s.peak {
      var u :| u in s.threads && Raising(s.threads[u]) && s.threads[u].mine == s.highest;
      assert ThreadOk(s, s.threads[u]);
      if u != t && u in s'.threads {
        assert s'.threads[u] == s.threads[u];
      } else if t in s'.threads {
        assert Raising(s'.threads[t]) && s'.threads[t].mine == s.highest;
      }
    }
  }

  lemma AddKeeps(s: State, s': State, t: ThreadId)
    requires Inv(s) && AddCurrent(s, s', t)
    ensures Inv(s')
  {
    assert t in s'.threads && s'.threads[t] == Loading(s'.current);
    if s.highest >= s'.current && s.highest > s.peak {
      var u :| u in s.threads && Raising(s.threads[u]) && s.threads[u].mine == s.highest;
      assert u != t && u in s'.threads && s'.threads[u] == s.threads[u];
    }
  }

  lemma OthersKeep(s: State, s': State, t: ThreadId)
    requires Inv(s) && Step(s, s', t) && !TryRaise(s, s', t) && !AddCurrent(s, s', t)
    ensures Inv(s')
  {
    if s.highest > s.peak {
      var u :| u in s.threads && Raising(s.threads[u]) && s.threads[u].mine == s.highest;
      assert u in s'.threads && Raising(s'.threads[u]) && s'.threads[u].mine == s.highest;
    }
  }

  /** One step keeps the invariant, and the recorded peak never goes down. */
  lemma StepKeeps(s: State, s': State, t: ThreadId)
    requires Inv(s) && Step(s, s', t)
    ensures Inv(s') && s.peak <= s'.peak
  {
    if TryRaise(s, s', t) {
      RaiseKeeps(s, s', t);
    } else if AddCurrent(s, s', t) {
      AddKeeps(s, s', t);
    } else {
      OthersKeep(s, s', t);
    }
  }

  // ---------------------------------------------------------------------------
  // What the calls in progress still owe the counters
  // ---------------------------------------------------------------------------

  ghost function Sum(threads: map<ThreadId, Pc>, weight: Pc -> int): int
    decreases |threads|
  {
    if threads == map[] then 0
    else
      var t :| t in threads;
      assert |threads - {t}| < |threads| by { Smaller(threads, t); }
      weight(threads[t]) + Sum(threads - {t}, weight)
  }

  lemma Smaller(threads: map<ThreadId, Pc>, t: ThreadId)
    requires t in threads
    ensures |threads - {t}| < |threads|
  {
    assert (threads - {t}).Keys == threads.Keys - {t};
    assert |(threads - {t}).Keys| == |threads.Keys| - 1;
  }

  lemma {:induction false} SumWithout(threads: map<ThreadId, Pc>, weight: Pc -> int, t: ThreadId)
    requires t in threads
    ensures Sum(threads, weight) == weight(threads[t]) + Sum(threads - {t}, weight)
    decreases |threads|
  {
    var u :| u in threads && Sum(threads, weight) == weight(threads[u]) + Sum(threads - {u}, weight);
    if u != t {
      Smaller(threads, u);
      Smaller(threads, t);
      SumWithout(threads - {u}, weight, t);
      SumWithout(threads - {t}, weight, u);
      assert threads - {u} - {t} == threads - {t} - {u};
    }
  }

  /** One thread moves: the sum changes by its weights alone. */
  lemma SumAt(threads: map<ThreadId, Pc>, weight: Pc -> int, t: ThreadId, pc: Pc)
    ensures Sum(threads[t := pc], weight) == weight(pc) + Sum(threads - {t}, weight)
    ensures t !in threads ==> Sum(threads - {t}, weight) == Sum(threads, weight)
    ensures t in threads ==> Sum(threads - {t}, weight) == Sum(threads, weight) - weight(threads[t])
  {
    assert threads[t := pc] - {t} == threads - {t};
    SumWithout(threads[t := pc], weight, t);
    if t in threads {
      SumWithout(threads, weight, t);
    } else {
      assert threads - {t} == threads;
    }
  }

  function Uncounted(pc: Pc): int { if pc.Counting? then 1 else 0 }
  function Untotalled(pc: Pc): int { if pc.Counting? || pc.Totalling? then pc.bytes else 0 }
  function Unadded(pc: Pc): int { if pc.Counting? || pc.Totalling? || pc.Adding? then pc.bytes else 0 }
  function Unreturned(pc: Pc): int { if pc.Freeing? then 1 else 0 }
  function Unsubtracted(pc: Pc): int { if pc.Freeing? || pc.Subtracting? then pc.bytes else 0 }

  /** Each counter is what the calls begun so far contribute, less what those in progress
      still owe it. */
  ghost predicate Counters(s: State)
  {
    && s.allocations == Wrap(s.allocationCalls - Sum(s.threads, Uncounted))
    && s.total == Wrap(s.asked - Sum(s.threads, Untotalled))
    && s.deallocations == Wrap(s.deallocationCalls - Sum(s.threads, Unreturned))
    && s.current == Wrap(s.asked - Sum(s.threads, Unadded) - (s.returned - Sum(s.threads, Unsubtracted)))
  }

  lemma WrapStep(x: int, y: int)
    ensures Wrap(Wrap(x) + y) == Wrap(x + y)
  {
    var q := x / WORD;
    assert x == q * WORD + x % WORD;
    assert (x % WORD + y) % WORD == (x % WORD + y + q * WORD) % WORD;
  }

  lemma SumsAt(s: State, t: ThreadId, pc: Pc)
    ensures forall weight | weight in {Uncounted, Untotalled, Unadded, Unreturned, Unsubtracted} ::
      && Sum(s.threads[t := pc], weight) == weight(pc) + Sum(s.threads - {t}, weight)
      && (t !in s.threads ==> Sum(s.threads - {t}, weight) == Sum(s.threads, weight))
      && (t in s.threads ==> Sum(s.threads - {t}, weight) == Sum(s.threads, weight) - weight(s.threads[t]))
  {
    SumAt(s.threads, Uncounted, t, pc);
    SumAt(s.threads, Untotalled, t, pc);
    SumAt(s.threads, Unadded, t, pc);
    SumAt(s.threads, Unreturned, t, pc);
    SumAt(s.threads, Unsubtracted, t, pc);
  }

  lemma AllocationBalances(s: State, s': State, t: ThreadId)
    requires Counters(s) && (CountAllocation(s, s', t) || AddTotal(s, s', t) || AddCurrent(s, s', t))
    ensures Counters(s')
  {
    hide Wrap, Sum;
    SumsAt(s, t, s'.threads[t]);
    WrapStep(s.allocationCalls - Sum(s.threads, Uncounted), 1);
    WrapStep(s.asked - Sum(s.threads, Untotalled), s.threads[t].bytes);
    WrapStep(s.asked - Sum(s.threads, Unadded) - (s.returned - Sum(s.threads, Unsubtracted)), s.threads[t].bytes);
  }

  lemma DeallocationBalances(s: State, s': State, t: ThreadId)
    requires Counters(s) && (CountDeallocation(s, s', t) || SubtractCurrent(s, s', t))
    ensures Counters(s')
  {
    hide Wrap, Sum;
    SumsAt(s, t, Subtracting(s.threads[t].bytes));
    WrapStep(s.deallocationCalls - Sum(s.threads, Unreturned), 1);
    WrapStep(s.asked - Sum(s.threads, Unadded) - (s.returned - Sum(s.threads, Unsubtracted)), 0 - s.threads[t].bytes);
  }

  lemma OthersBalance(s: State, s': State, t: ThreadId)
    requires Counters(s) && (Begin(s, s', t) || LoadPeak(s, s', t) || TryRaise(s, s', t))
    ensures Counters(s')
  {
    hide Wrap, Sum;
    SumsAt(s, t, if t in s'.threads then s'.threads[t] else s.threads[t]);
  }

  /** Every step keeps the account. */
  lemma StepBalances(s: State, s': State, t: ThreadId)
    requires Counters(s) && Step(s, s', t)
    ensures Counters(s')
  {
    hide Counters, Begin, CountAllocation, AddTotal, AddCurrent, LoadPeak, TryRaise, CountDeallocation, SubtractCurrent;
    if CountAllocation(s, s', t) || AddTotal(s, s', t) || AddCurrent(s, s', t) {
      AllocationBalances(s, s', t);
    } else if CountDeallocation(s, s', t) || SubtractCurrent(s, s', t) {
      DeallocationBalances(s, s', t);
    } else {
      OthersBalance(s, s', t);
    }
  }

  // ---------------------------------------------------------------------------
  // Runs
  // ---------------------------------------------------------------------------

  ghost predicate Run(trace: seq<State>, actors: seq<ThreadId>)
  {
    && |trace| == |actors| + 1 && Init(trace[0])
    && forall i :: 0 <= i < |actors| ==> Step(trace[i], trace[i + 1], actors[i])
  }

  lemma {:induction false} RunKeeps(trace: seq<State>, actors: seq<ThreadId>, i: nat)
    requires Run(trace, actors) && i < |trace|
    ensures Inv(trace[i])
  {
    hide Step;
    if i > 0 {
      RunKeeps(trace, actors, i - 1);
      StepKeeps(trace[i - 1], trace[i], actors[i - 1]);
    }
  }

  /** The peak never decreases over a run. */
  lemma {:induction false} PeakMonotone(trace: seq<State>, actors: seq<ThreadId>, i: nat, j: nat)
    requires Run(trace, actors) && i <= j < |trace|
    ensures trace[i].peak <= trace[j].peak
    decreases j
  {
    hide Step;
    if i < j {
      PeakMonotone(trace, actors, i, j - 1);
      RunKeeps(trace, actors, j - 1);
      StepKeeps(trace[j - 1], trace[j], actors[j - 1]);
    }
  }

  predicate NoAllocationInProgress(s: State)
  {
    forall t :: t in s.threads ==> s.threads[t].Freeing? || s.threads[t].Subtracting?
  }

  /** The peak never exceeds the largest value reached, and is that value whenever no
      `record_allocation` is in progress. */
  lemma PeakExact(trace: seq<State>, actors: seq<ThreadId>, i: nat)
    requires Run(trace, actors) && i < |trace|
    ensures trace[i].peak <= trace[i].highest
    ensures NoAllocationInProgress(trace[i]) ==> trace[i].peak == trace[i].highest
  {
    RunKeeps(trace, actors, i);
  }

  lemma StepHighest(s: State, s': State, t: ThreadId)
    requires Inv(s) && Step(s, s', t)
    ensures s.highest <= s'.highest
    ensures AddCurrent(s, s', t) ==> s'.current <= s'.highest
    ensures s'.highest > s.highest ==> AddCurrent(s, s', t) && s'.highest == s'.current
  {
  }

  /** `highest` really is the largest value after any addition of the run so far. */
  lemma {:induction false} HighestIsMax(trace: seq<State>, actors: seq<ThreadId>, i: nat, j: nat)
    requires Run(trace, actors) && i < j < |trace| && AddCurrent(trace[i], trace[i + 1], actors[i])
    ensures trace[i + 1].current <= trace[j].highest
    decreases j
  {
    hide Step;
    RunKeeps(trace, actors, j - 1);
    StepHighest(trace[j - 1], trace[j], actors[j - 1]);
    if i + 1 < j {
      HighestIsMax(trace, actors, i, j - 1);
    }
  }

  lemma {:induction false} HighestReached(trace: seq<State>, actors: seq<ThreadId>, j: nat)
    requires Run(trace, actors) && j < |trace|
    ensures trace[j].highest == 0 ||
            exists i :: 0 <= i < j && AddCurrent(trace[i], trace[i + 1], actors[i]) && trace[i + 1].current == trace[j].highest
    decreases j
  {
    hide Step, AddCurrent;
    if j > 0 {
      HighestReached(trace, actors, j - 1);
      RunKeeps(trace, actors, j - 1);
      StepHighest(trace[j - 1], trace[j], actors[j - 1]);
    }
  }

  lemma {:induction false} RunBalances(trace: seq<State>, actors: seq<ThreadId>, i: nat)
    requires Run(trace, actors) && i < |trace|
    ensures Counters(trace[i])
  {
    hide Step, Counters;
    if i > 0 {
      RunBalances(trace, actors, i - 1);
      StepBalances(trace[i - 1], trace[i], actors[i - 1]);
    } else {
      InitBalances(trace[0]);
    }
  }

  lemma InitBalances(s: State)
    requires Init(s)
    ensures Counters(s)
  {
  }

  /** Whenever no call is in progress, every counter is exactly what the calls made so far add
      up to, modulo the word size. */
  lemma CountersExact(trace: seq<State>, actors: seq<ThreadId>, i: nat)
    requires Run(trace, actors) && i < |trace| && trace[i].threads == map[]
    ensures trace[i].allocations == Wrap(trace[i].allocationCalls)
    ensures trace[i].deallocations == Wrap(trace[i].deallocationCalls)
    ensures trace[i].total == Wrap(trace[i].asked)
    ensures trace[i].current == Wrap(trace[i].asked - trace[i].returned)
  {
    RunBalances(trace, actors, i);
  }

  /** At any moment, the current bytes are those that have been added minus those that have been
      subtracted, as long as that difference fits a word. */
  lemma CurrentIsBalance(trace: seq<State>, actors: seq<ThreadId>, i: nat)
    requires Run(trace, actors) && i < |trace|
    ensures var s := trace[i];
            var added, freed := s.asked - Sum(s.threads, Unadded), s.returned - Sum(s.threads, Unsubtracted);
            0 <= added - freed < WORD ==> s.current == added - freed
  {
    RunBalances(trace, actors, i);
  }

  /** A compare-exchange that fails because the peak moved has seen it move up, so the loop
      cannot turn without another thread having made progress. */
  lemma RetryMeansRaised(s: State, s': State, t: ThreadId)
    requires Inv(s) && TryRaise(s, s', t) && t in s'.threads && s.threads[t].seen != s.peak
    ensures s'.threads[t].seen > s.threads[t].seen
  {
    assert ThreadOk(s, s.threads[t]);
  }

  /** A counter holds 64 bits: values below 2^64 are kept, and 2^64 itself is 0 again. */
  lemma CountersHold64Bits(x: int)
    ensures 0 <= x < 18_446_744_073_709_551_616 ==> Wrap(x) == x
    ensures Wrap(x + 18_446_744_073_709_551_616) == Wrap(x)
  {
    assert x + WORD == x + 1 * WORD;
  }
}
