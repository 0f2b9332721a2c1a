/** The Parquet scan's read-ahead (src/execution_gpu/parquet_scan_operator.cpp): a decoding
thread hands chunks to the consumer through a one-slot queue guarded by a mutex and a
condition variable. Every critical section, every notification and every decode is one
atomic step; a thread asleep on the condition variable goes on only after a notification
(or spuriously). The theorems hold in every interleaving. */
module Prefetch {
  import opened Expressions
  import opened Relational
  import opened Batches

  /** `Holding` has a decoded chunk and is about to test the queue; `Pushed` has queued one and
      is about to notify. */
  datatype Producer = Reading | Holding(chunk: Batch) | Asleep(chunk: Batch) | Pushed | Exited

  /** `Idle` is outside the operator; `Popped` is about to notify and return its chunk;
      `Stopping` has set the stop flag and is about to notify; `Joining` waits for the thread. */
  datatype Consumer = Idle | Testing | Sleeping | Popped(chunk: Batch) | Raised | Stopping | Joining | Closed

  datatype State = State(chunks: seq<Batch>, pos: nat, queue: seq<Batch>, done: bool, failed: bool, stop: bool,
                         producer: Producer, consumer: Consumer, delivered: seq<Batch>, ended: bool)

  predicate Init(s: State)
  {
    && s.pos == 0 && s.queue == [] && !s.done && !s.failed && !s.stop
    && s.producer.Reading? && s.consumer.Idle? && s.delivered == [] && !s.ended
  }

  /** Waking everyone who sleeps on the condition variable. */
  function WakeProducer(p: Producer): Producer
  {
    if p.Asleep? then Holding(p.chunk) else p
  }

  function WakeConsumer(c: Consumer): Consumer
  {
    if c.Sleeping? then Testing else c
  }

  // ---------------------------------------------------------------------------
  // The decoding thread: prefetch_loop
  // ---------------------------------------------------------------------------

  predicate ReadChunk(s: State, s': State)
  {
    && s.producer.Reading? && s.pos < |s.chunks|
    && s' == s.(pos := s.pos + 1, producer := if s.chunks[s.pos] == [] then Reading else Holding(s.chunks[s.pos]))
  }

  predicate FinishReading(s: State, s': State)
  {
    && s.producer.Reading? && s.pos == |s.chunks|
    && s' == s.(done := true, producer := Exited, consumer := WakeConsumer(s.consumer))
  }

  predicate Fail(s: State, s': State)
  {
    && (s.producer.Reading? || s.producer.Holding?)
    && s' == s.(failed := true, producer := Exited, consumer := WakeConsumer(s.consumer))
  }

  /** Lock, test, and push, sleep or leave. */
  predicate TryPush(s: State, s': State)
  {
    && s.producer.Holding?
    && s' == if s.stop then s.(producer := Exited)
             else if s.queue == [] then s.(queue := [s.producer.chunk], producer := Pushed)
             else s.(producer := Asleep(s.producer.chunk))
  }

  predicate NotifyPush(s: State, s': State)
  {
    s.producer.Pushed? && s' == s.(producer := Reading, consumer := WakeConsumer(s.consumer))
  }

  predicate ProducerStep(s: State, s': State)
  {
    ReadChunk(s, s') || FinishReading(s, s') || Fail(s, s') || TryPush(s, s') || NotifyPush(s, s')
  }

  // ---------------------------------------------------------------------------
  // The consuming thread: next and stop_decode_thread
  // ---------------------------------------------------------------------------

  predicate CallNext(s: State, s': State)
  {
    s.consumer.Idle? && s' == s.(consumer := Testing)
  }

  predicate TryPop(s: State, s': State)
  {
    && s.consumer.Testing?
    && s' == if s.failed then s.(consumer := Raised)
             else if s.queue != [] then s.(queue := s.queue[1..], consumer := Popped(s.queue[0]))
             else if s.done then s.(consumer := Idle, ended := true)
             else s.(consumer := Sleeping)
  }

  predicate NotifyPop(s: State, s': State)
  {
    && s.consumer.Popped?
    && s' == s.(consumer := Idle, producer := WakeProducer(s.producer), delivered := s.delivered + [s.consumer.chunk])
  }

  predicate RequestStop(s: State, s': State)
  {
    (s.consumer.Idle? || s.consumer.Raised?) && s' == s.(stop := true, consumer := Stopping)
  }

  predicate NotifyStop(s: State, s': State)
  {
    s.consumer.Stopping? && s' == s.(consumer := Joining, producer := WakeProducer(s.producer))
  }

  predicate Join(s: State, s': State)
  {
    s.consumer.Joining? && s.producer.Exited? && s' == s.(consumer := Closed, queue := [])
  }

  predicate ConsumerStep(s: State, s': State)
  {
    CallNext(s, s') || TryPop(s, s') || NotifyPop(s, s') || RequestStop(s, s') || NotifyStop(s, s') || Join(s, s')
  }

  predicate SpuriousWakeup(s: State, s': State)
  {
    s' == s.(producer := WakeProducer(s.producer)) || s' == s.(consumer := WakeConsumer(s.consumer))
  }

  predicate Step(s: State, s': State)
  {
    ProducerStep(s, s') || ConsumerStep(s, s') || SpuriousWakeup(s, s')
  }

  // ---------------------------------------------------------------------------
  // The invariant
  // ---------------------------------------------------------------------------

  function NonEmpty(chunks: seq<Batch>): seq<Batch>
  {
    Select((b: Batch) => b != [], chunks)
  }

  function InConsumer(s: State): seq<Batch>
  {
    if s.consumer.Popped? then [s.consumer.chunk] else []
  }

  function InProducer(s: State): seq<Batch>
  {
    if s.producer.Holding? || s.producer.Asleep? then [s.producer.chunk] else []
  }

  predicate Stopped(s: State)
  {
    s.consumer.Stopping? || s.consumer.Joining? || s.consumer.Closed?
  }

  /** No chunk is lost, repeated or reordered until a stop or a failure discards the rest. */
  ghost predicate InOrder(s: State)
  {
    && s.pos <= |s.chunks|
    && s.delivered + InConsumer(s) + s.queue <= NonEmpty(s.chunks[..s.pos])
    && (!s.stop && !s.failed ==>
          s.delivered + InConsumer(s) + s.queue + InProducer(s) == NonEmpty(s.chunks[..s.pos]))
  }

  /** A sleeping thread has nothing to do, unless the other is about to notify it. */
  ghost predicate NoLostWakeup(s: State)
  {
    && (s.producer.Asleep? ==> (s.queue != [] && !s.stop) || s.consumer.Popped? || s.consumer.Stopping?)
    && (s.consumer.Sleeping? ==> (s.queue == [] && !s.done && !s.failed) || s.producer.Pushed?)
  }

  ghost predicate Inv(s: State)
  {
    && |s.queue| <= 1
    && (s.stop <==> Stopped(s))
    && (s.done ==> s.producer.Exited? && s.pos == |s.chunks|)
    && (s.failed ==> s.producer.Exited?)
    && (s.producer.Exited? ==> s.done || s.failed || s.stop)
    && (s.ended ==> s.done && (s.stop || s.failed || s.delivered == NonEmpty(s.chunks)))
    && InOrder(s) && NoLostWakeup(s)
  }

  lemma NonEmptySnoc(chunks: seq<Batch>, i: nat)
    requires i < |chunks|
    ensures NonEmpty(chunks[..i + 1]) == NonEmpty(chunks[..i]) + if chunks[i] == [] then [] else [chunks[i]]
  {
    assert chunks[..i + 1] == chunks[..i] + [chunks[i]];
    SelectAppend((b: Batch) => b != [], chunks[..i], [chunks[i]]);
    SelectCons((b: Batch) => b != [], [chunks[i]]);
  }

  lemma InvInit(s: State)
    requires Init(s)
    ensures Inv(s)
  {
  }

  lemma InvRead(s: State, s': State)
    requires Inv(s) && ReadChunk(s, s')
    ensures Inv(s')
  {
    hide NonEmpty;
    NonEmptySnoc(s.chunks, s.pos);
    var before := s.delivered + InConsumer(s) + s.queue;
    assert before + [] == before;
  }

  lemma InvPush(s: State, s': State)
    requires Inv(s) && TryPush(s, s')
    ensures Inv(s')
  {
    hide NonEmpty;
    if !s.stop && s.queue == [] {
      assert s.delivered + InConsumer(s) + [] == s.delivered + InConsumer(s);
      assert s'.delivered + InConsumer(s') + s'.queue + [] == s'.delivered + InConsumer(s') + s'.queue;
    }
  }

  lemma InvProducer(s: State, s': State)
    requires Inv(s) && ProducerStep(s, s')
    ensures Inv(s') && s'.chunks == s.chunks
  {
    hide NonEmpty;
    if ReadChunk(s, s') {
      InvRead(s, s');
    } else if TryPush(s, s') {
      InvPush(s, s');
    }
  }

  lemma InvPop(s: State, s': State)
    requires Inv(s) && TryPop(s, s')
    ensures Inv(s')
  {
    hide NonEmpty;
    if s.queue != [] {
      assert s.queue == [s.queue[0]] + s.queue[1..];
      assert s.delivered + [] + s.queue == s'.delivered + InConsumer(s') + s'.queue;
    } else {
      assert s.chunks[..|s.chunks|] == s.chunks;
      assert s.delivered + [] + [] + [] == s.delivered;
    }
  }

  lemma InvReturn(s: State, s': State)
    requires Inv(s) && NotifyPop(s, s')
    ensures Inv(s')
  {
    hide NonEmpty;
    assert s'.delivered + [] + s'.queue == s.delivered + [s.consumer.chunk] + s.queue;
    assert s.chunks[..|s.chunks|] == s.chunks;
    assert InProducer(s') == InProducer(s);
    var all := s.delivered + [s.consumer.chunk] + s.queue + InProducer(s);
    assert |all| > |s.delivered|;
  }

  lemma InvConsumer(s: State, s': State)
    requires Inv(s) && (ConsumerStep(s, s') || SpuriousWakeup(s, s'))
    ensures Inv(s') && s'.chunks == s.chunks
  {
    hide NonEmpty;
    if TryPop(s, s') {
      InvPop(s, s');
    } else if NotifyPop(s, s') {
      InvReturn(s, s');
    } else if Join(s, s') {
      assert s.delivered + [] + s.queue == s.delivered + s.queue && s.delivered + [] + [] == s.delivered;
    }
  }

  // ---------------------------------------------------------------------------
  // Runs
  // ---------------------------------------------------------------------------

  ghost predicate Run(trace: seq<State>)
  {
    |trace| > 0 && Init(trace[0]) && forall i :: 0 <= i < |trace| - 1 ==> Step(trace[i], trace[i + 1])
  }

  lemma {:induction false} RunInvariant(trace: seq<State>, i: nat)
    requires Run(trace) && i < |trace|
    ensures Inv(trace[i]) && trace[i].chunks == trace[0].chunks
  {
    hide Inv, ProducerStep, ConsumerStep, SpuriousWakeup, Init;
    if i == 0 {
      InvInit(trace[0]);
    } else {
      RunInvariant(trace, i - 1);
      if ProducerStep(trace[i - 1], trace[i]) {
        InvProducer(trace[i - 1], trace[i]);
      } else {
        InvConsumer(trace[i - 1], trace[i]);
      }
    }
  }

  /** At every moment of every run: at most one chunk is queued; what was delivered is a prefix
      of the reader's non-empty chunks, in order; and the end of the stream is reported only
      after all of them. */
  lemma DeliveredInOrder(trace: seq<State>, i: nat)
    requires Run(trace) && i < |trace|
    ensures |trace[i].queue| <= 1
    ensures trace[i].delivered <= NonEmpty(trace[0].chunks)
    ensures trace[i].ended && !trace[i].stop && !trace[i].failed ==> trace[i].delivered == NonEmpty(trace[0].chunks)
  {
    RunInvariant(trace, i);
    var s := trace[i];
    PrefixOfAll(s.chunks, s.pos);
  }

  lemma PrefixOfAll(chunks: seq<Batch>, pos: nat)
    requires pos <= |chunks|
    ensures NonEmpty(chunks[..pos]) <= NonEmpty(chunks)
  {
    assert chunks == chunks[..pos] + chunks[pos..];
    SelectAppend((b: Batch) => b != [], chunks[..pos], chunks[pos..]);
  }

  /** The end of the stream, when reported, was reported after everything was delivered. */
  lemma EndMeansAll(trace: seq<State>, i: nat)
    requires Run(trace) && i + 1 < |trace| && !trace[i].ended && trace[i + 1].ended
    ensures trace[i + 1].delivered == NonEmpty(trace[0].chunks)
  {
    hide Inv, Step;
    RunInvariant(trace, i);
    EndStep(trace[i], trace[i + 1]);
  }

  lemma EndStep(s: State, s': State)
    requires Inv(s) && Step(s, s') && !s.ended && s'.ended
    ensures s'.delivered == NonEmpty(s.chunks)
  {
    hide NonEmpty;
    assert TryPop(s, s') && s.done && s.queue == [];
    assert s.chunks[..|s.chunks|] == s.chunks;
    assert s.delivered + [] + [] + [] == s.delivered;
  }

  // ---------------------------------------------------------------------------
  // Progress
  // ---------------------------------------------------------------------------

  predicate ProducerBlocked(s: State)
  {
    s.producer.Asleep? || s.producer.Exited?
  }

  predicate ConsumerBlocked(s: State)
  {
    s.consumer.Sleeping? || (s.consumer.Joining? && !s.producer.Exited?)
  }

  /** A thread that is not blocked can take a step. */
  lemma UnblockedSteps(s: State)
    requires Inv(s)
    ensures !ProducerBlocked(s) ==> exists s' :: ProducerStep(s, s')
    ensures !ConsumerBlocked(s) && !s.consumer.Closed? ==> exists s' :: ConsumerStep(s, s')
  {
    if !ProducerBlocked(s) {
      var s' := ProducerNext(s);
      assert ProducerStep(s, s');
    }
    if !ConsumerBlocked(s) && !s.consumer.Closed? {
      var s' := ConsumerNext(s);
      assert ConsumerStep(s, s');
    }
  }

  function ProducerNext(s: State): State
  {
    match s.producer
    case Reading =>
      if s.pos < |s.chunks| then
        s.(pos := s.pos + 1, producer := if s.chunks[s.pos] == [] then Reading else Holding(s.chunks[s.pos]))
      else s.(done := true, producer := Exited, consumer := WakeConsumer(s.consumer))
    case Holding(c) =>
      if s.stop then s.(producer := Exited)
      else if s.queue == [] then s.(queue := [c], producer := Pushed)
      else s.(producer := Asleep(c))
    case Pushed => s.(producer := Reading, consumer := WakeConsumer(s.consumer))
    case _ => s
  }

  function ConsumerNext(s: State): State
  {
    match s.consumer
    case Idle => s.(consumer := Testing)
    case Testing =>
      if s.failed then s.(consumer := Raised)
      else if s.queue != [] then s.(queue := s.queue[1..], consumer := Popped(s.queue[0]))
      else if s.done then s.(consumer := Idle, ended := true)
      else s.(consumer := Sleeping)
    case Popped(c) => s.(consumer := Idle, producer := WakeProducer(s.producer), delivered := s.delivered + [c])
    case Raised => s.(stop := true, consumer := Stopping)
    case Stopping => s.(consumer := Joining, producer := WakeProducer(s.producer))
    case Joining => s.(consumer := Closed, queue := [])
    case _ => s
  }

  /** How far the decoding thread can still be from leaving. */
  function StepsToExit(s: State): nat
    requires s.pos <= |s.chunks|
  {
    match s.producer
    case Exited => 0
    case Reading => 2 * (|s.chunks| - s.pos) + 1
    case Holding(_) => 2 * (|s.chunks| - s.pos) + 2
    case Pushed => 2 * (|s.chunks| - s.pos) + 2
    case Asleep(_) => 2 * (|s.chunks| - s.pos) + 3
  }

  /** After a stop request every step of the decoding thread brings it closer to leaving, no
      step of another thread sends it back, and once notified it is never asleep. */
  lemma StopEnds(s: State, s': State)
    requires Inv(s) && s.stop && Step(s, s')
    ensures s'.stop && s'.pos <= |s'.chunks| && StepsToExit(s') <= StepsToExit(s)
    ensures ProducerStep(s, s') ==> StepsToExit(s') < StepsToExit(s)
    ensures !s.consumer.Stopping? ==> !s.producer.Asleep?
  {
  }

  /** The two threads are never both blocked: until the operator is closed, one of them can
      always take a step. */
  lemma NoDeadlock(trace: seq<State>, i: nat)
    requires Run(trace) && i < |trace|
    ensures !(ProducerBlocked(trace[i]) && ConsumerBlocked(trace[i]))
    ensures trace[i].consumer.Closed? || exists s' :: ProducerStep(trace[i], s') || ConsumerStep(trace[i], s')
  {
    RunInvariant(trace, i);
    UnblockedSteps(trace[i]);
  }

  /** Steps of the decoding thread between two moments of a run. */
  ghost function ProducerSteps(trace: seq<State>, i: nat, j: nat): nat
    requires i <= j < |trace|
    decreases j
  {
    if i == j then 0
    else ProducerSteps(trace, i, j - 1) + if ProducerStep(trace[j - 1], trace[j]) then 1 else 0
  }

  /** After a stop request the decoding thread takes a bounded number of further steps: two
      for each chunk it has left to read, and three more. */
  lemma {:induction false} StopBounded(trace: seq<State>, i: nat, j: nat)
    requires Run(trace) && i <= j < |trace| && trace[i].stop
    ensures trace[i].pos <= |trace[i].chunks| && trace[j].stop && trace[j].pos <= |trace[j].chunks|
    ensures ProducerSteps(trace, i, j) + StepsToExit(trace[j]) <= StepsToExit(trace[i])
         <= 2 * (|trace[i].chunks| - trace[i].pos) + 3
    decreases j
  {
    hide ProducerStep, ConsumerStep, SpuriousWakeup, NoLostWakeup;
    RunInvariant(trace, i);
    if i < j {
      StopBounded(trace, i, j - 1);
      RunInvariant(trace, j - 1);
      StopEnds(trace[j - 1], trace[j]);
    }
  }

  // ---------------------------------------------------------------------------
  // A stop by another thread
  // ---------------------------------------------------------------------------

  /** The consumer is inside `next`, and has neither a chunk nor a verdict yet. */
  predicate Inside(s: State)
  {
    s.consumer.Testing? || s.consumer.Sleeping?
  }

  /** A step while the consumer stays in one call of `next`. The notification that follows a stop
      wakes it no more than a spurious wakeup does. */
  predicate InsideStep(s: State, s': State)
  {
    ProducerStep(s, s') || TryPop(s, s') || SpuriousWakeup(s, s')
  }

  ghost predicate Reaches(s: State, t: State, n: nat)
    decreases n
  {
    if n == 0 then s == t else exists m :: InsideStep(s, m) && Reaches(m, t, n - 1)
  }

  /** The consumer sleeps and no thread is left to wake it. */
  predicate Stranded(s: State)
  {
    s.consumer.Sleeping? && s.producer.Exited?
  }

  ghost predicate CanStrand(s: State)
  {
    exists n: nat, t :: Reaches(s, t, n) && Stranded(t)
  }

  ghost predicate ChunkLeft(s: State)
  {
    exists i :: s.pos <= i < |s.chunks| && s.chunks[i] != []
  }

  /** Nothing is queued, and the decoding thread has a chunk it will not push any more, or one
      left to read. */
  ghost predicate Exposed(s: State)
  {
    && Inside(s) && s.queue == [] && !s.done && !s.failed
    && (s.producer.Exited? || s.producer.Holding? || s.producer.Asleep? || ChunkLeft(s))
  }

  ghost predicate Guarded(s: State)
  {
    s.stop && !Exposed(s) && (s.consumer.Sleeping? ==> (s.queue == [] && !s.done && !s.failed) || s.producer.Pushed?)
  }

  lemma GuardedProducer(s: State, m: State)
    requires Guarded(s) && ProducerStep(s, m)
    ensures Guarded(m)
  {
    assert ChunkLeft(m) ==> ChunkLeft(s);
  }

  lemma GuardedConsumer(s: State, m: State)
    requires Guarded(s) && (TryPop(s, m) || SpuriousWakeup(s, m))
    ensures Guarded(m)
  {
    assert ChunkLeft(m) ==> ChunkLeft(s);
  }

  lemma {:induction false} GuardedNeverStrands(s: State, t: State, n: nat)
    requires Guarded(s) && Reaches(s, t, n)
    ensures !Stranded(t)
    decreases n
  {
    hide ProducerStep, SpuriousWakeup, TryPop;
    if n > 0 {
      var m :| InsideStep(s, m) && Reaches(m, t, n - 1);
      if ProducerStep(s, m) {
        GuardedProducer(s, m);
      } else {
        GuardedConsumer(s, m);
      }
      GuardedNeverStrands(m, t, n - 1);
    }
  }

  lemma Then(s: State, m: State)
    requires InsideStep(s, m) && CanStrand(m)
    ensures CanStrand(s)
  {
    var n: nat, t :| Reaches(m, t, n) && Stranded(t);
    assert Reaches(s, t, n + 1);
  }

  /** An exposed consumer can be stranded: the decoding thread reads on to the next chunk, sees
      the stop request and leaves without a notification. */
  lemma {:induction false} ExposedStrands(s: State)
    requires Exposed(s) && s.stop
    ensures CanStrand(s)
    decreases |s.chunks| - s.pos, if s.producer.Exited? then 0 else if s.producer.Asleep? || s.producer.Pushed? then 2 else 1,
      s.consumer.Testing?
  {
    match s.producer
    case Exited =>
      if s.consumer.Sleeping? {
        assert Reaches(s, s, 0);
      } else {
        var m := s.(consumer := Sleeping);
        assert TryPop(s, m);
        ExposedStrands(m);
        Then(s, m);
      }
    case Asleep(c) =>
      var m := s.(producer := Holding(c));
      assert SpuriousWakeup(s, m);
      ExposedStrands(m);
      Then(s, m);
    case _ =>
      var m := ProducerNext(s);
      assert ProducerStep(s, m);
      assert s.producer.Reading? ==> s.pos < |s.chunks|;
      assert ChunkLeft(s) && !s.producer.Reading? ==> ChunkLeft(m);
      ExposedStrands(m);
      Then(s, m);
  }

  /** A stop request from another thread can strand a consumer inside `next` exactly when
      nothing is queued for it and the decoding thread has a chunk in hand or left to read; if
      there is none, it goes on to report the end and wakes the consumer. */
  lemma StopStrandsExactly(s: State)
    requires Inv(s) && Inside(s)
    ensures CanStrand(s.(stop := true)) <==>
      s.queue == [] && !s.done && !s.failed && (s.producer.Holding? || ChunkLeft(s))
  {
    hide InOrder;
    var stopped := s.(stop := true);
    assert ChunkLeft(stopped) <==> ChunkLeft(s);
    if Exposed(stopped) {
      ExposedStrands(stopped);
    } else {
      forall n: nat, t | Reaches(stopped, t, n) ensures !Stranded(t) {
        GuardedNeverStrands(stopped, t, n);
      }
    }
  }

  /** Once stranded it stays in that call for ever: waking up only sends it back to sleep. */
  lemma {:induction false} StrandedForEver(s: State, t: State, n: nat)
    requires Inside(s) && s.producer.Exited? && s.queue == [] && !s.done && !s.failed && Reaches(s, t, n)
    ensures Inside(t) && t.delivered == s.delivered
    decreases n
  {
    if n > 0 {
      var m :| InsideStep(s, m) && Reaches(m, t, n - 1);
      StrandedForEver(m, t, n - 1);
    }
  }

  /** A run to such a state: why the stop request must come from the consuming thread. */
  lemma StopDuringNextStrands(c: Batch) returns (trace: seq<State>)
    requires c != []
    ensures Run(trace) && Inside(trace[|trace| - 1]) && CanStrand(trace[|trace| - 1].(stop := true))
  {
    hide CanStrand;
    var start := State([c], 0, [], false, false, false, Reading, Idle, [], false);
    var called := start.(consumer := Testing);
    var asleep := start.(consumer := Sleeping);
    assert Init(start) && CallNext(start, called) && TryPop(called, asleep);
    trace := [start, called, asleep];
    RunInvariant(trace, 2);
    assert asleep.chunks[0] == c && ChunkLeft(asleep);
    StopStrandsExactly(asleep);
  }

  // ---------------------------------------------------------------------------
  // Fragment by fragment: the mode for partitioned tables, without read-ahead
  // ---------------------------------------------------------------------------

  /** One file: its chunks, and the constants its partition columns take. */
  datatype Fragment = Fragment(chunks: seq<Batch>, partitionValues: Row)

  function Extended(values: Row, chunk: Batch): Batch
  {
    Map(row => row + values, chunk)
  }

  function FragmentBatches(f: Fragment, from: nat): seq<Batch>
    requires from <= |f.chunks|
  {
    Map(chunk => Extended(f.partitionValues, chunk), NonEmpty(f.chunks[from..]))
  }

  function AllBatches(fragments: seq<Fragment>): seq<Batch>
  {
    if fragments == [] then [] else FragmentBatches(fragments[0], 0) + AllBatches(fragments[1..])
  }

  class FragmentScan {
    const fragments: seq<Fragment>
    var current: nat
    var reader: Option<nat>

    constructor (fragments: seq<Fragment>)
      ensures this.fragments == fragments && Valid() && Remaining() == AllBatches(fragments)
    {
      this.fragments := fragments;
      current, reader := 0, None;
      new;
      assert fragments[0..] == fragments;
    }

    ghost predicate Valid()
      reads this
    {
      current <= |fragments| && (reader.Some? ==> current < |fragments| && reader.value <= |fragments[current].chunks|)
    }

    /** The batches still to come. */
    ghost function Remaining(): seq<Batch>
      requires Valid()
      reads this
    {
      if reader.Some? then FragmentBatches(fragments[current], reader.value) + AllBatches(fragments[current + 1..])
      else AllBatches(fragments[current..])
    }

    /** The next non-empty chunk, extended with the partition values of its own fragment. */
    method Next() returns (batch: Option<Batch>)
      requires Valid()
      modifies this
      ensures Valid()
      ensures batch.None? ==> old(Remaining()) == [] && Remaining() == []
      ensures batch.Some? ==> old(Remaining()) == [batch.value] + Remaining()
    {
      hide FragmentBatches, AllBatches;
      while true
        invariant Valid() && Remaining() == old(Remaining())
        decreases Left()
      {
        if reader.None? {
          FragmentsCons(fragments, current);
          if current >= |fragments| {
            return None;
          }
          reader := Some(0);
        }
        batch := ReadOne();
        if batch.Some? {
          return;
        }
      }
    }

    /** Chunks and files not yet looked at. */
    ghost function Left(): nat
      requires Valid()
      reads this
    {
      if reader.Some? then |fragments[current].chunks| - reader.value + ChunksFrom(fragments, current + 1) + 1
      else ChunksFrom(fragments, current)
    }

    /** One chunk of the open file; None when it was empty or the file is exhausted. */
    method ReadOne() returns (batch: Option<Batch>)
      requires Valid() && reader.Some?
      modifies this
      ensures Valid() && Left() < old(Left())
      ensures batch.None? ==> Remaining() == old(Remaining())
      ensures batch.Some? ==> old(Remaining()) == [batch.value] + Remaining()
    {
      hide FragmentBatches, AllBatches, ChunksFrom;
      var f := fragments[current];
      FragmentCons(f, reader.value);
      if reader.value == |f.chunks| {
        reader, current := None, current + 1;
        return None;
      }
      var chunk := f.chunks[reader.value];
      reader := Some(reader.value + 1);
      return if |chunk| == 0 then None else Some(Extended(f.partitionValues, chunk));
    }
  }

  function ChunksFrom(fragments: seq<Fragment>, i: nat): nat
    requires i <= |fragments|
    decreases |fragments| - i
  {
    if i == |fragments| then 0 else |fragments[i].chunks| + 1 + ChunksFrom(fragments, i + 1)
  }

  lemma FragmentsCons(fragments: seq<Fragment>, i: nat)
    requires i <= |fragments|
    ensures AllBatches(fragments[i..])
         == if i == |fragments| then [] else FragmentBatches(fragments[i], 0) + AllBatches(fragments[i + 1..])
  {
    if i < |fragments| {
      assert fragments[i..][0] == fragments[i] && fragments[i..][1..] == fragments[i + 1..];
    }
  }

  lemma FragmentCons(f: Fragment, i: nat)
    requires i <= |f.chunks|
    ensures FragmentBatches(f, i)
         == if i == |f.chunks| then []
            else (if f.chunks[i] == [] then [] else [Extended(f.partitionValues, f.chunks[i])]) + FragmentBatches(f, i + 1)
  {
    if i < |f.chunks| {
      assert f.chunks[i..][0] == f.chunks[i] && f.chunks[i..][1..] == f.chunks[i + 1..];
      SelectCons((b: Batch) => b != [], f.chunks[i..]);
      var g := (chunk: Batch) => Extended(f.partitionValues, chunk);
      MapAppend(g, if f.chunks[i] == [] then [] else [f.chunks[i]], NonEmpty(f.chunks[i + 1..]));
    }
  }

  /** A delivered row is a row of the file, followed by the file's partition values. */
  lemma ExtendedRows(values: Row, chunk: Batch, i: nat)
    requires i < |chunk|
    ensures |Extended(values, chunk)| == |chunk|
    ensures var row := Extended(values, chunk)[i];
            && |row| == |chunk[i]| + |values|
            && (forall j :: 0 <= j < |chunk[i]| ==> row[j] == chunk[i][j])
            && (forall j :: 0 <= j < |values| ==> row[|chunk[i]| + j] == values[j])
  {
    MapIndex(row => row + values, chunk);
  }

  /** How many rows the files have. */
  function ChunkRows(chunks: seq<Batch>): nat
  {
    if chunks == [] then 0 else |chunks[0]| + ChunkRows(chunks[1..])
  }

  function FileRows(fragments: seq<Fragment>): nat
  {
    if fragments == [] then 0 else ChunkRows(fragments[0].chunks) + FileRows(fragments[1..])
  }

  lemma {:induction false} FragmentComplete(f: Fragment, from: nat)
    requires from <= |f.chunks|
    ensures |Flatten(FragmentBatches(f, from))| == ChunkRows(f.chunks[from..])
    decreases |f.chunks| - from
  {
    hide FragmentBatches;
    FragmentCons(f, from);
    if from < |f.chunks| {
      FragmentComplete(f, from + 1);
      assert f.chunks[from..][1..] == f.chunks[from + 1..];
      var extended := Extended(f.partitionValues, f.chunks[from]);
      if f.chunks[from] != [] {
        ExtendedRows(f.partitionValues, f.chunks[from], 0);
        FlattenPrepend(extended, FragmentBatches(f, from + 1));
      } else {
        assert [] + FragmentBatches(f, from + 1) == FragmentBatches(f, from + 1);
      }
    }
  }

  /** Scanning fragment by fragment delivers as many rows as the files have. */
  lemma {:induction false} ScanComplete(fragments: seq<Fragment>)
    ensures |Flatten(AllBatches(fragments))| == FileRows(fragments)
  {
    hide FragmentBatches;
    if fragments != [] {
      FragmentComplete(fragments[0], 0);
      assert fragments[0].chunks[0..] == fragments[0].chunks;
      ScanComplete(fragments[1..]);
      FlatMapAppend((b: Batch) => b, FragmentBatches(fragments[0], 0), AllBatches(fragments[1..]));
    }
  }
}
