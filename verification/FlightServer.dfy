/** The Flight SQL server's registries (src/server/flight_sql_server.cpp): executed results wait
under a handle until fetched, prepared statements until closed. Concurrent calls interleave
at their critical sections, each one atomic step. The theorems hold in every interleaving. */
module FlightServer {
  import opened Expressions
  import opened Batches

  type QueryResult = seq<Batch>
  type CallId = nat

  // ---------------------------------------------------------------------------
  // Handles
  // ---------------------------------------------------------------------------

  function Digit(d: nat): char
    requires d < 10
  {
    ('0' as int + d) as char
  }

  function Decimal(n: nat): (s: string)
    ensures s != []
  {
    if n < 10 then [Digit(n)] else Decimal(n / 10) + [Digit(n % 10)]
  }

  lemma {:induction false} DecimalInjective(m: nat, n: nat)
    requires Decimal(m) == Decimal(n)
    ensures m == n
  {
    var s := Decimal(m);
    if m >= 10 || n >= 10 {
      assert m >= 10 ==> s[..|s| - 1] == Decimal(m / 10);
      assert n >= 10 ==> s[..|s| - 1] == Decimal(n / 10);
      assert s[|s| - 1] == Digit(m % 10) && s[|s| - 1] == Digit(n % 10);
      if m >= 10 && n >= 10 {
        DecimalInjective(m / 10, n / 10);
      }
    }
  }

  function ResultHandle(n: nat): string
  {
    "q-" + Decimal(n)
  }

  function PreparedHandle(n: nat): string
  {
    "p-" + Decimal(n)
  }

  /** No two numbers share a handle, and no result shares one with a prepared statement. */
  lemma HandlesDistinct(m: nat, n: nat)
    ensures ResultHandle(m) == ResultHandle(n) ==> m == n
    ensures PreparedHandle(m) == PreparedHandle(n) ==> m == n
    ensures ResultHandle(m) != PreparedHandle(n)
  {
    if ResultHandle(m) == ResultHandle(n) {
      assert ResultHandle(m)[2..] == Decimal(m) && ResultHandle(n)[2..] == Decimal(n);
      DecimalInjective(m, n);
    }
    if PreparedHandle(m) == PreparedHandle(n) {
      assert PreparedHandle(m)[2..] == Decimal(m) && PreparedHandle(n)[2..] == Decimal(n);
      DecimalInjective(m, n);
    }
    assert ResultHandle(m)[0] == 'q' && PreparedHandle(n)[0] == 'p';
  }

  /** The number that a decimal numeral denotes. */
  function Numeral(s: string): int
  {
    if s == [] then 0 else 10 * Numeral(s[..|s| - 1]) + (s[|s| - 1] as int - '0' as int)
  }

  lemma {:induction false} DecimalDenotes(n: nat)
    ensures Numeral(Decimal(n)) == n && forall c :: c in Decimal(n) ==> '0' <= c <= '9'
  {
    var s := Decimal(n);
    assert s[|s| - 1] == Digit(n % 10);
    if n >= 10 {
      DecimalDenotes(n / 10);
      assert s[..|s| - 1] == Decimal(n / 10);
    } else {
      assert s[..|s| - 1] == [];
    }
  }

  /** Results are numbered q-0, q-1 and so on, prepared statements p-0, p-1 and so on. */
  lemma HandleForms(n: nat)
    ensures ResultHandle(n)[..2] == "q-" && Numeral(ResultHandle(n)[2..]) == n
    ensures PreparedHandle(n)[..2] == "p-" && Numeral(PreparedHandle(n)[2..]) == n
  {
    DecimalDenotes(n);
    assert ResultHandle(n)[2..] == Decimal(n) && PreparedHandle(n)[2..] == Decimal(n);
  }

  // ---------------------------------------------------------------------------
  // State and steps
  // ---------------------------------------------------------------------------

  /** `asked` is the text each call in progress is to run, `running` are the calls that hold a
      reservation; `issued` remembers every result handle ever given out and what was stored under
      it, `answers` the text it is the result of, and `delivered` every fetch that found one. */
  datatype State = State(limit: nat, results: map<string, QueryResult>, prepared: map<string, string>,
                         pending: int, nextHandle: nat, asked: map<CallId, string>,
                         running: set<CallId>, issued: map<string, QueryResult>, answers: map<string, string>,
                         delivered: seq<(string, QueryResult)>, preparedIssued: set<string>)

  predicate Init(s: State)
  {
    && s.results == map[] && s.prepared == map[] && s.pending == 0 && s.asked == map[]
    && s.running == {} && s.issued == map[] && s.answers == map[] && s.delivered == [] && s.preparedIssued == {}
  }

  /** `emplace` keeps an entry that is already there. */
  function Emplace<V>(m: map<string, V>, key: string, value: V): map<string, V>
  {
    if key in m then m else m[key := value]
  }

  /** GetFlightInfoStatement: a call that brings its own text. */
  predicate Ask(s: State, s': State, c: CallId, sql: string)
  {
    c !in s.asked && s' == s.(asked := s.asked[c := sql])
  }

  /** GetFlightInfoPreparedStatement: a call that names a prepared statement; an unknown handle is
      refused. */
  predicate Lookup(s: State, s': State, c: CallId, handle: string)
  {
    c !in s.asked && s' == if handle in s.prepared then s.(asked := s.asked[c := s.prepared[handle]]) else s
  }

  /** Take a reservation; where the registry is full the call ends. */
  predicate Reserve(s: State, s': State, c: CallId)
  {
    && c in s.asked && c !in s.running
    && s' == if |s.results| + s.pending >= s.limit then s.(asked := s.asked - {c})
             else s.(pending := s.pending + 1, running := s.running + {c})
  }

  /** Execution failed: give the reservation back. */
  predicate Abandon(s: State, s': State, c: CallId)
  {
    c in s.running && s' == s.(pending := s.pending - 1, running := s.running - {c}, asked := s.asked - {c})
  }

  /** Execution succeeded: turn the reservation into a stored result. */
  predicate Store(s: State, s': State, c: CallId, result: QueryResult)
  {
    var handle := ResultHandle(s.nextHandle);
    && c in s.running && c in s.asked
    && s' == s.(pending := s.pending - 1, nextHandle := s.nextHandle + 1, results := Emplace(s.results, handle, result),
                running := s.running - {c}, asked := s.asked - {c}, issued := s.issued[handle := result],
                answers := s.answers[handle := s.asked[c]])
  }

  /** DoGetStatement: take the result out, if there is one. */
  predicate Fetch(s: State, s': State, handle: string)
  {
    s' == if handle in s.results
          then s.(results := s.results - {handle}, delivered := s.delivered + [(handle, s.results[handle])])
          else s
  }

  predicate Prepare(s: State, s': State, sql: string)
  {
    var handle := PreparedHandle(s.nextHandle);
    s' == if |s.prepared| >= s.limit then s
          else s.(nextHandle := s.nextHandle + 1, prepared := Emplace(s.prepared, handle, sql),
                  preparedIssued := s.preparedIssued + {handle})
  }

  predicate ClosePrepared(s: State, s': State, handle: string)
  {
    s' == s.(prepared := s.prepared - {handle})
  }

  datatype Action =
    | DoAsk(c: CallId, sql: string) | DoLookup(c: CallId, handle: string)
    | DoReserve(c: CallId) | DoAbandon(c: CallId) | DoStore(c: CallId, result: QueryResult)
    | DoFetch(handle: string) | DoPrepare(sql: string) | DoClose(handle: string)

  predicate Step(s: State, a: Action, s': State)
  {
    match a
    case DoAsk(c, sql) => Ask(s, s', c, sql)
    case DoLookup(c, handle) => Lookup(s, s', c, handle)
    case DoReserve(c) => Reserve(s, s', c)
    case DoAbandon(c) => Abandon(s, s', c)
    case DoStore(c, result) => Store(s, s', c, result)
    case DoFetch(handle) => Fetch(s, s', handle)
    case DoPrepare(sql) => Prepare(s, s', sql)
    case DoClose(handle) => ClosePrepared(s, s', handle)
  }

  // ---------------------------------------------------------------------------
  // The invariant
  // ---------------------------------------------------------------------------

  ghost predicate Within(s: State)
  {
    && s.pending == |s.running|
    && |s.results| + s.pending <= s.limit
    && |s.prepared| <= s.limit
  }

  ghost predicate ResultBelow(h: string, bound: nat)
  {
    exists n: nat :: n < bound && h == ResultHandle(n)
  }

  ghost predicate PreparedBelow(h: string, bound: nat)
  {
    exists n: nat :: n < bound && h == PreparedHandle(n)
  }

  lemma BelowGrows(bound: nat)
    ensures forall h :: ResultBelow(h, bound) ==> ResultBelow(h, bound + 1)
    ensures forall h :: PreparedBelow(h, bound) ==> PreparedBelow(h, bound + 1)
    ensures ResultBelow(ResultHandle(bound), bound + 1) && PreparedBelow(PreparedHandle(bound), bound + 1)
  {
  }

  /** Every handle ever issued was numbered below the counter. */
  ghost predicate Numbered(s: State)
  {
    && (forall h :: h in s.issued ==> ResultBelow(h, s.nextHandle))
    && (forall h :: h in s.preparedIssued ==> PreparedBelow(h, s.nextHandle))
    && s.prepared.Keys <= s.preparedIssued
  }

  /** Every issued result is still stored or was delivered, once, as it was stored. */
  ghost predicate Accounted(s: State)
  {
    && (forall h :: h in s.results ==> h in s.issued && s.results[h] == s.issued[h])
    && (forall d :: d in s.delivered ==> d.0 in s.issued && d.1 == s.issued[d.0] && d.0 !in s.results)
    && (forall i, j :: 0 <= i < j < |s.delivered| ==> s.delivered[i].0 != s.delivered[j].0)
    && (forall h :: h in s.issued ==> h in s.results || (h, s.issued[h]) in s.delivered)
  }

  ghost predicate Inv(s: State)
  {
    Within(s) && Numbered(s) && Accounted(s)
  }

  lemma Fresh(s: State)
    requires Numbered(s)
    ensures ResultHandle(s.nextHandle) !in s.issued && PreparedHandle(s.nextHandle) !in s.preparedIssued
  {
    if ResultHandle(s.nextHandle) in s.issued {
      var n: nat :| n < s.nextHandle && ResultHandle(s.nextHandle) == ResultHandle(n);
      HandlesDistinct(n, s.nextHandle);
    }
    if PreparedHandle(s.nextHandle) in s.preparedIssued {
      var n: nat :| n < s.nextHandle && PreparedHandle(s.nextHandle) == PreparedHandle(n);
      HandlesDistinct(n, s.nextHandle);
    }
  }

  lemma StoreAccounted(s: State, s': State, c: CallId, result: QueryResult)
    requires Accounted(s) && Store(s, s', c, result) && ResultHandle(s.nextHandle) !in s.issued
    ensures Accounted(s')
  {
    hide ResultHandle;
  }

  lemma StoreNumbered(s: State, s': State, c: CallId, result: QueryResult)
    requires Numbered(s) && Store(s, s', c, result)
    ensures Numbered(s')
  {
    hide ResultHandle, ResultBelow, PreparedBelow;
    BelowGrows(s.nextHandle);
  }

  lemma StoreWithin(s: State, s': State, c: CallId, result: QueryResult)
    requires Within(s) && Store(s, s', c, result) && ResultHandle(s.nextHandle) !in s.results
    ensures Within(s')
  {
    hide ResultHandle;
    assert |s.running| == |s.running - {c}| + 1;
    assert |s'.results| == |s.results| + 1;
  }

  lemma StoreKeeps(s: State, s': State, c: CallId, result: QueryResult)
    requires Inv(s) && Store(s, s', c, result)
    ensures Inv(s') && s'.limit == s.limit
  {
    hide ResultHandle, ResultBelow, PreparedBelow;
    Fresh(s);
    assert ResultHandle(s.nextHandle) !in s.results;
    hide Accounted, Numbered, Within;
    StoreAccounted(s, s', c, result);
    StoreNumbered(s, s', c, result);
    StoreWithin(s, s', c, result);
  }

  lemma PrepareNumbered(s: State, s': State, sql: string)
    requires Numbered(s) && Prepare(s, s', sql)
    ensures Numbered(s')
  {
    hide PreparedHandle, ResultBelow, PreparedBelow;
    BelowGrows(s.nextHandle);
  }

  lemma PrepareKeeps(s: State, s': State, sql: string)
    requires Inv(s) && Prepare(s, s', sql)
    ensures Inv(s') && s'.limit == s.limit
  {
    hide PreparedHandle, Accounted, Numbered;
    AccountedSame(s, s');
    PrepareNumbered(s, s', sql);
    if |s.prepared| < s.limit {
      EmplaceSize(s.prepared, PreparedHandle(s.nextHandle), sql);
    }
  }

  lemma EmplaceSize<V>(m: map<string, V>, key: string, value: V)
    ensures |Emplace(m, key, value)| == if key in m then |m| else |m| + 1
  {
  }

  lemma NumberedSame(s: State, s': State)
    requires Numbered(s) && s'.issued == s.issued && s'.preparedIssued == s.preparedIssued && s'.nextHandle == s.nextHandle
    requires s'.prepared.Keys <= s.prepared.Keys
    ensures Numbered(s')
  {
  }

  lemma AccountedSame(s: State, s': State)
    requires Accounted(s) && s'.results == s.results && s'.issued == s.issued && s'.delivered == s.delivered
    ensures Accounted(s')
  {
  }

  lemma RemoveSize<V>(m: map<string, V>, h: string)
    ensures (m - {h}).Keys == m.Keys - {h}
    ensures |m - {h}| == if h in m then |m| - 1 else |m|
  {
    var r := m - {h};
    assert r.Keys == m.Keys - {h};
    KeysSize(r);
    KeysSize(m);
    if h in m {
      assert m.Keys == r.Keys + {h};
    } else {
      assert m.Keys == r.Keys;
    }
  }

  lemma KeysSize<V>(m: map<string, V>)
    ensures |m.Keys| == |m|
  {
  }

  lemma FetchKeeps(s: State, s': State, handle: string)
    requires Inv(s) && Fetch(s, s', handle)
    ensures Inv(s') && s'.limit == s.limit
  {
    if handle in s.results {
      var d := (handle, s.results[handle]);
      RemoveSize(s.results, handle);
      assert forall h :: h in s.issued && (h, s.issued[h]) in s.delivered ==> (h, s.issued[h]) in s.delivered + [d];
      assert d in s'.delivered;
    }
  }

  lemma StepKeeps(s: State, a: Action, s': State)
    requires Inv(s) && Step(s, a, s')
    ensures Inv(s') && s'.limit == s.limit
  {
    hide Inv, Ask, Lookup, Reserve, Abandon, Store, Fetch, Prepare, ClosePrepared;
    match a
    case DoAsk(c, sql) => AskKeeps(s, s', c, sql);
    case DoLookup(c, handle) => LookupKeeps(s, s', c, handle);
    case DoReserve(c) => ReserveKeeps(s, s', c);
    case DoAbandon(c) => AbandonKeeps(s, s', c);
    case DoStore(c, result) => StoreKeeps(s, s', c, result);
    case DoFetch(handle) => FetchKeeps(s, s', handle);
    case DoPrepare(sql) => PrepareKeeps(s, s', sql);
    case DoClose(handle) => CloseKeeps(s, s', handle);
  }

  lemma AskKeeps(s: State, s': State, c: CallId, sql: string)
    requires Inv(s) && Ask(s, s', c, sql)
    ensures Inv(s') && s'.limit == s.limit
  {
    hide Accounted, Numbered;
    AccountedSame(s, s');
    NumberedSame(s, s');
  }

  lemma LookupKeeps(s: State, s': State, c: CallId, handle: string)
    requires Inv(s) && Lookup(s, s', c, handle)
    ensures Inv(s') && s'.limit == s.limit
  {
    hide Accounted, Numbered;
    AccountedSame(s, s');
    NumberedSame(s, s');
  }

  lemma ReserveKeeps(s: State, s': State, c: CallId)
    requires Inv(s) && Reserve(s, s', c)
    ensures Inv(s') && s'.limit == s.limit
  {
    hide Accounted, Numbered;
    AccountedSame(s, s');
    NumberedSame(s, s');
    assert |s.running + {c}| == |s.running| + 1;
  }

  lemma AbandonKeeps(s: State, s': State, c: CallId)
    requires Inv(s) && Abandon(s, s', c)
    ensures Inv(s') && s'.limit == s.limit
  {
    hide Accounted, Numbered;
    AccountedSame(s, s');
    NumberedSame(s, s');
    assert |s.running| == |s.running - {c}| + 1;
  }

  lemma CloseKeeps(s: State, s': State, handle: string)
    requires Inv(s) && ClosePrepared(s, s', handle)
    ensures Inv(s') && s'.limit == s.limit
  {
    hide Accounted, Numbered;
    AccountedSame(s, s');
    RemoveSize(s.prepared, handle);
    NumberedSame(s, s');
  }

  // ---------------------------------------------------------------------------
  // Runs
  // ---------------------------------------------------------------------------

  ghost predicate Run(trace: seq<State>, actions: seq<Action>)
  {
    && |trace| == |actions| + 1 && Init(trace[0])
    && forall i :: 0 <= i < |actions| ==> Step(trace[i], actions[i], trace[i + 1])
  }

  lemma {:induction false} RunKeeps(trace: seq<State>, actions: seq<Action>, i: nat)
    requires Run(trace, actions) && i < |trace|
    ensures Inv(trace[i]) && trace[i].limit == trace[0].limit
  {
    hide Inv, Step, Init;
    if i == 0 {
      InitHolds(trace[0]);
    } else {
      RunKeeps(trace, actions, i - 1);
      StepKeeps(trace[i - 1], actions[i - 1], trace[i]);
    }
  }

  lemma InitHolds(s: State)
    requires Init(s)
    ensures Inv(s)
  {
  }

  /** At every moment of every interleaving: stored results and reservations together stay
      within the limit, the counter is exactly the number of calls holding a reservation, and
      prepared statements stay within the same limit. */
  lemma LimitsHold(trace: seq<State>, actions: seq<Action>, i: nat)
    requires Run(trace, actions) && i < |trace|
    ensures trace[i].pending == |trace[i].running|
    ensures |trace[i].results| + |trace[i].running| <= trace[0].limit && |trace[i].prepared| <= trace[0].limit
  {
    RunKeeps(trace, actions, i);
  }

  lemma StepKeepsIssued(s: State, a: Action, s': State, h: string)
    requires Inv(s) && Step(s, a, s') && h in s.issued
    ensures h in s'.issued && s'.issued[h] == s.issued[h]
  {
    hide Accounted, Within, ResultHandle, ResultBelow, PreparedBelow;
    Fresh(s);
  }

  lemma {:induction false} IssuedStays(trace: seq<State>, actions: seq<Action>, i: nat, j: nat, h: string)
    requires Run(trace, actions) && i <= j < |trace| && h in trace[i].issued
    ensures h in trace[j].issued && trace[j].issued[h] == trace[i].issued[h]
    decreases j
  {
    hide Inv, Step, Init;
    if i < j {
      IssuedStays(trace, actions, i, j - 1, h);
      RunKeeps(trace, actions, j - 1);
      StepKeepsIssued(trace[j - 1], actions[j - 1], trace[j], h);
    }
  }

  lemma {:induction false} PreparedStays(trace: seq<State>, actions: seq<Action>, i: nat, j: nat, h: string)
    requires Run(trace, actions) && i <= j < |trace| && h in trace[i].preparedIssued
    ensures h in trace[j].preparedIssued
    decreases j
  {
    hide Init, Step;
    if i < j {
      PreparedStays(trace, actions, i, j - 1, h);
      PreparedRemembered(trace[j - 1], actions[j - 1], trace[j]);
    }
  }

  lemma PreparedRemembered(s: State, a: Action, s': State)
    requires Step(s, a, s')
    ensures s.preparedIssued <= s'.preparedIssued
  {
    hide ResultHandle, PreparedHandle;
  }

  /** The handle that a step of a run issues, if it issues one. */
  function IssuedBy(s: State, a: Action): Option<string>
  {
    match a
    case DoStore(_, _) => Some(ResultHandle(s.nextHandle))
    case DoPrepare(_) => if |s.prepared| < s.limit then Some(PreparedHandle(s.nextHandle)) else None
    case _ => None
  }

  lemma IssuedRecorded(s: State, a: Action, s': State)
    requires Step(s, a, s') && IssuedBy(s, a).Some?
    ensures a.DoStore? ==> IssuedBy(s, a).value in s'.issued
    ensures a.DoPrepare? ==> IssuedBy(s, a).value in s'.preparedIssued
  {
  }

  /** A handle is never issued twice in a run: what a later step issues, for a result or for a
      prepared statement, no earlier result or prepared statement had. */
  lemma HandlesNeverReused(trace: seq<State>, actions: seq<Action>, i: nat, j: nat)
    requires Run(trace, actions) && i < j < |actions|
    requires IssuedBy(trace[i], actions[i]).Some? && IssuedBy(trace[j], actions[j]).Some?
    ensures IssuedBy(trace[i], actions[i]) != IssuedBy(trace[j], actions[j])
    ensures IssuedBy(trace[j], actions[j]).value !in trace[j].results && IssuedBy(trace[j], actions[j]).value !in trace[j].prepared
  {
    hide Step, Init, ResultHandle, PreparedHandle;
    RunKeeps(trace, actions, j);
    IssuedRecorded(trace[i], actions[i], trace[i + 1]);
    var h := IssuedBy(trace[i], actions[i]).value;
    if actions[i].DoStore? {
      IssuedStays(trace, actions, i + 1, j, h);
    } else {
      PreparedStays(trace, actions, i + 1, j, h);
    }
    NewHandle(trace[j], IssuedBy(trace[j], actions[j]).value, actions[j].DoStore?);
  }

  /** The next handle of either kind is new to both registries. */
  lemma NewHandle(s: State, h: string, result: bool)
    requires Inv(s) && h == if result then ResultHandle(s.nextHandle) else PreparedHandle(s.nextHandle)
    ensures h !in s.issued && h !in s.preparedIssued && h !in s.results && h !in s.prepared
  {
    hide ResultHandle, PreparedHandle;
    Fresh(s);
    if result && h in s.preparedIssued {
      var n: nat :| n < s.nextHandle && h == PreparedHandle(n);
      HandlesDistinct(s.nextHandle, n);
    }
    if !result && h in s.issued {
      var n: nat :| n < s.nextHandle && h == ResultHandle(n);
      HandlesDistinct(n, s.nextHandle);
    }
  }

  /** Every successful fetch of a run delivers what was stored under its handle. */
  lemma DeliveredAsStored(trace: seq<State>, actions: seq<Action>, n: nat, i: nat)
    requires Run(trace, actions) && n < |trace| && i < |trace[n].delivered|
    ensures trace[n].delivered[i].0 in trace[n].issued
    ensures trace[n].delivered[i].1 == trace[n].issued[trace[n].delivered[i].0]
  {
    RunKeeps(trace, actions, n);
    assert trace[n].delivered[i] in trace[n].delivered;
  }

  /** Two successful fetches of a run never share a handle. */
  lemma DeliveredOnce(trace: seq<State>, actions: seq<Action>, n: nat, i: nat, j: nat)
    requires Run(trace, actions) && n < |trace| && i < j < |trace[n].delivered|
    ensures trace[n].delivered[i].0 != trace[n].delivered[j].0
  {
    RunKeeps(trace, actions, n);
  }

  /** Nothing is lost either: every result ever stored is waiting or was delivered. */
  lemma NothingLost(trace: seq<State>, actions: seq<Action>, n: nat, h: string)
    requires Run(trace, actions) && n < |trace| && h in trace[n].issued
    ensures h in trace[n].results <==> (h, trace[n].issued[h]) !in trace[n].delivered
  {
    RunKeeps(trace, actions, n);
  }

  // ---------------------------------------------------------------------------
  // Nothing is refused that could be served
  // ---------------------------------------------------------------------------

  /** A fetch of a waiting result delivers it and takes it out; any other finds nothing. */
  lemma FetchDelivers(trace: seq<State>, actions: seq<Action>, i: nat, handle: string)
    requires Run(trace, actions) && i < |actions| && actions[i] == DoFetch(handle)
    ensures handle in trace[i].results ==>
      && handle in trace[i].issued
      && trace[i + 1].delivered == trace[i].delivered + [(handle, trace[i].issued[handle])]
      && handle !in trace[i + 1].results
    ensures handle !in trace[i].results ==> trace[i + 1] == trace[i]
  {
    assert Step(trace[i], actions[i], trace[i + 1]);
    RunKeeps(trace, actions, i);
  }

  /** A call gets its reservation, and a statement is prepared, whenever there is room. */
  lemma GrantedWithRoom(trace: seq<State>, actions: seq<Action>, i: nat)
    requires Run(trace, actions) && i < |actions|
    ensures actions[i].DoReserve? && |trace[i].results| + |trace[i].running| < trace[0].limit ==>
      actions[i].c in trace[i + 1].running
    ensures actions[i].DoPrepare? && |trace[i].prepared| < trace[0].limit ==>
      && PreparedHandle(trace[i].nextHandle) in trace[i + 1].prepared
      && trace[i + 1].prepared[PreparedHandle(trace[i].nextHandle)] == actions[i].sql
  {
    hide PreparedHandle;
    assert Step(trace[i], actions[i], trace[i + 1]);
    RunKeeps(trace, actions, i);
    Fresh(trace[i]);
  }

  // ---------------------------------------------------------------------------
  // Prepared statements run the text they were given
  // ---------------------------------------------------------------------------

  lemma OthersKeepPrepared(s: State, a: Action, s': State)
    requires Step(s, a, s') && !a.DoPrepare? && !a.DoClose?
    ensures s'.prepared == s.prepared
  {
    hide ResultHandle, PreparedHandle;
  }

  lemma PreparedStep(s: State, a: Action, s': State, h: string, sql: string)
    requires Inv(s) && Step(s, a, s') && h in s.preparedIssued && (h in s.prepared ==> s.prepared[h] == sql)
    ensures h in s'.prepared ==> h in s.prepared && s'.prepared[h] == sql
    ensures h in s.prepared && a != DoClose(h) ==> h in s'.prepared
  {
    hide Accounted, Within, ResultHandle, PreparedHandle;
    if a.DoPrepare? {
      Fresh(s);
      hide Numbered;
    } else if a.DoClose? {
      hide Numbered;
    } else {
      OthersKeepPrepared(s, a, s');
      hide Step;
    }
  }

  /** A prepared statement keeps its text until it is closed, and is never replaced. */
  lemma {:induction false} PreparedKept(trace: seq<State>, actions: seq<Action>, i: nat, j: nat, h: string, sql: string)
    requires Run(trace, actions) && i <= j < |trace| && h in trace[i].prepared && trace[i].prepared[h] == sql
    ensures h in trace[j].prepared ==> trace[j].prepared[h] == sql
    ensures (forall l :: i <= l < j ==> actions[l] != DoClose(h)) ==> h in trace[j].prepared
    decreases j
  {
    hide Inv, Step, Init;
    if i < j {
      PreparedKept(trace, actions, i, j - 1, h, sql);
      RunKeeps(trace, actions, i);
      RunKeeps(trace, actions, j - 1);
      PreparedNumbered(trace[i], h);
      PreparedStays(trace, actions, i, j - 1, h);
      PreparedStep(trace[j - 1], actions[j - 1], trace[j], h, sql);
    }
  }

  lemma PreparedNumbered(s: State, h: string)
    requires Inv(s) && h in s.prepared
    ensures h in s.preparedIssued
  {
  }

  predicate Begins(a: Action, c: CallId)
  {
    (a.DoAsk? || a.DoLookup?) && a.c == c
  }

  lemma AskedStep(s: State, a: Action, s': State, c: CallId, sql: string)
    requires Step(s, a, s') && !Begins(a, c) && (c in s.asked ==> s.asked[c] == sql)
    ensures c in s'.asked ==> s'.asked[c] == sql
  {
    hide ResultHandle, PreparedHandle;
  }

  /** A call runs one text from beginning to end. */
  lemma {:induction false} AskedKept(trace: seq<State>, actions: seq<Action>, i: nat, j: nat, c: CallId, sql: string)
    requires Run(trace, actions) && i <= j < |trace| && (c in trace[i].asked ==> trace[i].asked[c] == sql)
    requires forall l :: i <= l < j ==> !Begins(actions[l], c)
    ensures c in trace[j].asked ==> trace[j].asked[c] == sql
    decreases j
  {
    hide Step, Init;
    if i < j {
      AskedKept(trace, actions, i, j - 1, c, sql);
      AskedStep(trace[j - 1], actions[j - 1], trace[j], c, sql);
    }
  }

  /** The result that a call on a prepared statement stores is the result of the text that the
      statement was created with; and the statement is found unless it was closed. */
  lemma PreparedTextRuns(trace: seq<State>, actions: seq<Action>, i: nat, j: nat, n: nat)
    requires Run(trace, actions) && i < j < n < |actions|
    requires actions[i].DoPrepare? && IssuedBy(trace[i], actions[i]).Some?
    requires actions[j].DoLookup? && actions[j].handle == IssuedBy(trace[i], actions[i]).value
    requires actions[n].DoStore? && actions[n].c == actions[j].c
    requires forall l :: j < l < n ==> !Begins(actions[l], actions[j].c)
    ensures trace[n + 1].answers[ResultHandle(trace[n].nextHandle)] == actions[i].sql
    ensures (forall l :: i < l < j ==> actions[l] != DoClose(actions[j].handle)) ==>
      actions[j].handle in trace[j].prepared
  {
    hide Inv, ResultHandle, PreparedHandle;
    var h, c, sql := actions[j].handle, actions[j].c, actions[i].sql;
    assert Step(trace[i], actions[i], trace[i + 1]) && Step(trace[j], actions[j], trace[j + 1]) && Step(trace[n], actions[n], trace[n + 1]);
    RunKeeps(trace, actions, i);
    NewHandle(trace[i], h, false);
    PreparedKept(trace, actions, i + 1, j, h, sql);
    AskedKept(trace, actions, j + 1, n, c, sql);
  }
}
