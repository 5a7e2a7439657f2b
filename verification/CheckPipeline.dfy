/** The integrity check as a machine of small steps: the loop fetches, dispatches, waits,
    swaps and flushes, while worker tasks complete at any moment in any order. */
module CheckPipeline {
  import opened Base
  import opened Relations
  import opened RelationLaws
  import opened Checking

  /** What a run starts from. The store is fixed while it is checked, so each object has
      one verdict; `ids` is the order in which the cursor yields them. */
  datatype Setup = Setup(
    tables: Tables, ids: seq<Uuid>, verdict: map<Uuid, string>, batch: nat,
    success: nat, errors: nat)

  ghost predicate ValidSetup(c: Setup) {
    && Consistent(c.tables)
    && c.verdict.Keys == c.tables.objects.Keys
    && (forall id :: id in c.ids <==> id in c.tables.objects)
    && (forall i, j :: 0 <= i < j < |c.ids| ==> c.ids[i] != c.ids[j])
    && c.batch >= 1
  }

  /** `Head` is the loop test, `Filling` lasts from a fetch to the swap, `Flushing` until
      the batch is written and cleared. */
  datatype Phase = Head | Filling | Flushing | Done | Failed

  datatype State = State(
    phase: Phase,
    more: bool,                // the portal's truth value
    unfetched: seq<Uuid>,
    queue: seq<Uuid>,          // fetched, not yet dispatched
    inFlight: set<Uuid>,
    counter: nat,
    incoming: seq<Record>,     // the vector `in`
    outgoing: seq<Record>,     // the vector `out`
    flushed: seq<Record>,      // history: every record ever written
    tables: Tables,
    success: nat,
    errors: nat)

  function Start(c: Setup): State {
    State(Head, true, c.ids, [], {}, 0, [], [], [], c.tables, c.success, c.errors)
  }

  /** `check_progress::completed`. */
  function Completed(s: State): nat {
    s.success + s.errors
  }

  /** The number of tasks that may still run when the loop goes on. */
  function Limit(c: Setup, s: State): nat {
    if s.more then c.batch / 2 else 0
  }

  datatype Event =
    | Fetch(n: nat, more: bool)
    | Dispatch
    | Complete(id: Uuid)
    | Swap
    | Flush
    | Finish

  /** A fetch yields at most a batch of the next rows; an empty one ends the portal, and
      the portal ends only when no rows are left. */
  predicate Enabled(c: Setup, s: State, e: Event) {
    match e
    case Fetch(n, more) =>
      && s.phase == Head && s.more
      && n <= c.batch && n <= |s.unfetched|
      && (n == 0 ==> !more) && (!more ==> n == |s.unfetched|)
    case Dispatch => s.phase == Filling && s.queue != []
    case Complete(id) => id in s.inFlight && id in c.verdict
    case Swap => s.phase == Filling && s.queue == [] && s.counter <= Limit(c, s)
    case Flush => s.phase == Flushing
    case Finish => s.phase == Head && !s.more
  }

  ghost function Step(c: Setup, s: State, e: Event): State
    requires Enabled(c, s, e)
  {
    match e
    case Fetch(n, more) =>
      s.(phase := Filling, more := more, queue := s.unfetched[..n], unfetched := s.unfetched[n..])
    case Dispatch =>
      s.(inFlight := s.inFlight + {s.queue[0]}, counter := s.counter + 1, queue := s.queue[1..])
    case Complete(id) =>
      var message := c.verdict[id];
      s.(inFlight := s.inFlight - {id},
         counter := if s.counter > 0 then s.counter - 1 else 0,
         incoming := s.incoming + [Record(id, message)],
         success := if message == "" then s.success + 1 else s.success,
         errors := if message == "" then s.errors else s.errors + 1)
    case Swap =>
      s.(phase := Flushing, incoming := s.outgoing, outgoing := s.incoming)
    case Flush =>
      var r := UpdateErrors(s.tables, s.outgoing);
      if r.Err? then s.(phase := Failed)
      else s.(phase := Head, tables := r.value, flushed := s.flushed + s.outgoing, outgoing := [])
    case Finish => s.(phase := Done)
  }

  /** `events` leads from `s` to `s'`. */
  ghost predicate Leads(c: Setup, s: State, events: seq<Event>, s': State)
    decreases |events|
  {
    if events == [] then s == s'
    else Enabled(c, s, events[0]) && Leads(c, Step(c, s, events[0]), events[1..], s')
  }

  // The invariant, part by part

  function Dispatched(c: Setup, s: State): int {
    |c.ids| - |s.queue| - |s.unfetched|
  }

  ghost predicate Ordered(c: Setup, s: State) {
    && 0 <= Dispatched(c, s)
    && c.ids[Dispatched(c, s)..] == s.queue + s.unfetched
    && (!s.more ==> s.unfetched == [])
    && (s.phase != Filling ==> s.queue == [])
    && (s.phase != Flushing ==> s.outgoing == [])
    && s.phase != Failed
    && (s.phase == Done ==> !s.more)
  }

  function IdsOf(records: seq<Record>): seq<Uuid> {
    seq(|records|, i requires 0 <= i < |records| => records[i].id)
  }

  function Spread(inFlight: set<Uuid>, a: seq<Record>, b: seq<Record>, d: seq<Record>): multiset<Uuid> {
    multiset(inFlight) + multiset(IdsOf(a)) + multiset(IdsOf(b)) + multiset(IdsOf(d))
  }

  function Whereabouts(s: State): multiset<Uuid> {
    Spread(s.inFlight, s.incoming, s.outgoing, s.flushed)
  }

  /** Every dispatched id is in exactly one place, once. */
  ghost predicate Accounted(c: Setup, s: State) {
    && 0 <= Dispatched(c, s) <= |c.ids|
    && Whereabouts(s) == multiset(c.ids[..Dispatched(c, s)])
    && s.counter == |s.inFlight|
  }

  ghost predicate Truthful(c: Setup, records: seq<Record>) {
    forall r :: r in records ==> r.id in c.verdict && r.message == c.verdict[r.id]
  }

  ghost predicate Throttled(c: Setup, s: State) {
    && |s.outgoing| <= c.batch + c.batch / 2
    && (if s.phase == Filling then |s.queue| + s.counter + |s.incoming| <= c.batch + c.batch / 2
        else s.counter + |s.incoming| <= c.batch / 2)
    && (s.phase != Filling && !s.more ==> s.counter + |s.incoming| == 0)
  }

  ghost predicate Tallied(c: Setup, s: State) {
    && s.success + s.errors == c.success + c.errors + |s.incoming| + |s.outgoing| + |s.flushed|
    && s.errors == c.errors + |Flagged(s.incoming)| + |Flagged(s.outgoing)| + |Flagged(s.flushed)|
  }

  ghost predicate Written(c: Setup, s: State) {
    && s.tables == c.tables.(errors := s.tables.errors)
    && (forall r :: r in s.flushed ==> Reported(s.tables.errors, r.id, r.message))
    && (forall id :: !Mentions(s.flushed, id) ==> SameEntry(c.tables.errors, s.tables.errors, id))
  }

  ghost predicate Inv(c: Setup, s: State) {
    && Ordered(c, s)
    && Accounted(c, s)
    && Truthful(c, s.incoming) && Truthful(c, s.outgoing) && Truthful(c, s.flushed)
    && Throttled(c, s)
    && Tallied(c, s)
    && Written(c, s)
  }

  lemma StartInv(c: Setup)
    requires ValidSetup(c)
    ensures Inv(c, Start(c))
  {
    assert c.ids[..0] == [];
  }

  // Consequences of the accounting

  lemma {:induction false} AtMostOnce(ids: seq<Uuid>, id: Uuid)
    requires forall i, j :: 0 <= i < j < |ids| ==> ids[i] != ids[j]
    ensures multiset(ids)[id] <= 1
  {
    if ids != [] {
      var init, last := ids[..|ids| - 1], ids[|ids| - 1];
      AtMostOnce(init, id);
      assert ids == init + [last];
      assert last !in init;
    }
  }

  lemma AppearsOnce(c: Setup, s: State, id: Uuid)
    requires ValidSetup(c) && Accounted(c, s)
    ensures Whereabouts(s)[id] <= 1
    ensures Whereabouts(s)[id] == 1 <==> id in c.ids[..Dispatched(c, s)]
  {
    AtMostOnce(c.ids[..Dispatched(c, s)], id);
  }

  lemma IdsOfCount(records: seq<Record>, i: nat, j: nat)
    requires i < j < |records| && records[i].id == records[j].id
    ensures multiset(IdsOf(records))[records[i].id] >= 2
  {
    var ids := IdsOf(records);
    var left, right := ids[..j], ids[j..];
    assert ids == left + right;
    assert left[i] == ids[i] && right[0] == ids[j];
    assert ids[i] in multiset(left) && ids[i] in multiset(right);
  }

  lemma IdsOfMembers(records: seq<Record>, id: Uuid)
    ensures id in multiset(IdsOf(records)) <==> Mentions(records, id)
  {
    var ids := IdsOf(records);
    if id in ids {
      var i :| 0 <= i < |ids| && ids[i] == id;
      assert records[i] in records;
    }
    if r :| r in records && r.id == id {
      var i :| 0 <= i < |records| && records[i] == r;
      assert ids[i] == id;
    }
  }

  lemma DistinctWhenCounted(records: seq<Record>, places: multiset<Uuid>)
    requires multiset(IdsOf(records)) <= places
    requires forall id :: places[id] <= 1
    ensures DistinctIds(records)
  {
    forall i, j | 0 <= i < j < |records| ensures records[i].id != records[j].id {
      if records[i].id == records[j].id {
        IdsOfCount(records, i, j);
      }
    }
  }

  /** No record is lost, duplicated or written twice: the dispatched ids are the disjoint
      union of those in flight and those of the three lists, and no list repeats an id. */
  lemma Partition(c: Setup, s: State, id: Uuid)
    requires ValidSetup(c) && Inv(c, s)
    ensures DistinctIds(s.incoming) && DistinctIds(s.outgoing) && DistinctIds(s.flushed)
    ensures var a, b, d, e := id in s.inFlight, Mentions(s.incoming, id), Mentions(s.outgoing, id), Mentions(s.flushed, id);
            && (id in c.ids[..Dispatched(c, s)] <==> a || b || d || e)
            && !(a && b) && !(a && d) && !(a && e) && !(b && d) && !(b && e) && !(d && e)
  {
    forall x ensures Whereabouts(s)[x] <= 1 {
      AppearsOnce(c, s, x);
    }
    DistinctWhenCounted(s.incoming, Whereabouts(s));
    DistinctWhenCounted(s.outgoing, Whereabouts(s));
    DistinctWhenCounted(s.flushed, Whereabouts(s));
    AppearsOnce(c, s, id);
    IdsOfMembers(s.incoming, id);
    IdsOfMembers(s.outgoing, id);
    IdsOfMembers(s.flushed, id);
  }

  // Preservation

  lemma QueueOrdered(c: Setup, s: State, e: Event)
    requires Ordered(c, s) && Enabled(c, s, e) && (e.Fetch? || e.Dispatch?)
    ensures Ordered(c, Step(c, s, e))
  {
    var d := Dispatched(c, s);
    match e
    case Fetch(n, _) => assert s.unfetched[..n] + s.unfetched[n..] == s.unfetched;
    case Dispatch => assert c.ids[d + 1..] == c.ids[d..][1..] == s.queue[1..] + s.unfetched;
  }

  lemma PhaseOrdered(c: Setup, s: State, e: Event)
    requires Ordered(c, s) && Enabled(c, s, e) && !e.Fetch? && !e.Dispatch?
    requires UpdateErrors(s.tables, s.outgoing).Ok?
    ensures Ordered(c, Step(c, s, e))
  {
  }

  lemma StepOrdered(c: Setup, s: State, e: Event)
    requires ValidSetup(c) && Inv(c, s) && Enabled(c, s, e)
    ensures Ordered(c, Step(c, s, e))
  {
    if e.Fetch? || e.Dispatch? {
      QueueOrdered(c, s, e);
    } else {
      FlushAccepted(c, s);
      PhaseOrdered(c, s, e);
    }
  }

  /** The database never refuses a flush. */
  lemma FlushAccepted(c: Setup, s: State)
    requires ValidSetup(c) && Inv(c, s)
    ensures UpdateErrors(s.tables, s.outgoing).Ok?
  {
    Partition(c, s, Uuid(""));
    UpdateErrorsExact(s.tables, s.outgoing);
  }

  lemma SpreadDispatch(inFlight: set<Uuid>, a: seq<Record>, b: seq<Record>, d: seq<Record>, id: Uuid)
    requires id !in inFlight
    ensures Spread(inFlight + {id}, a, b, d) == Spread(inFlight, a, b, d) + multiset{id}
  {
    assert multiset(inFlight + {id}) == multiset(inFlight) + multiset{id};
  }

  lemma SpreadComplete(inFlight: set<Uuid>, a: seq<Record>, b: seq<Record>, d: seq<Record>, r: Record)
    requires r.id in inFlight
    ensures Spread(inFlight - {r.id}, a + [r], b, d) == Spread(inFlight, a, b, d)
  {
    assert IdsOf(a + [r]) == IdsOf(a) + [r.id];
    assert multiset(inFlight) == multiset(inFlight - {r.id}) + multiset{r.id};
  }

  lemma SpreadSwap(inFlight: set<Uuid>, a: seq<Record>, b: seq<Record>, d: seq<Record>)
    ensures Spread(inFlight, b, a, d) == Spread(inFlight, a, b, d)
  {
  }

  lemma SpreadFlush(inFlight: set<Uuid>, a: seq<Record>, b: seq<Record>, d: seq<Record>)
    ensures Spread(inFlight, a, [], d + b) == Spread(inFlight, a, b, d)
  {
    assert IdsOf(d + b) == IdsOf(d) + IdsOf(b);
    assert IdsOf([]) == [];
  }

  lemma NextIsNew(c: Setup, s: State)
    requires ValidSetup(c) && Ordered(c, s) && Accounted(c, s) && s.queue != []
    ensures var d := Dispatched(c, s);
            && d < |c.ids| && s.queue[0] !in s.inFlight
            && multiset(c.ids[..d + 1]) == multiset(c.ids[..d]) + multiset{s.queue[0]}
  {
    var d, id := Dispatched(c, s), s.queue[0];
    assert id == c.ids[d..][0] == c.ids[d];
    assert c.ids[..d + 1] == c.ids[..d] + [id];
    AppearsOnce(c, s, id);
    assert Whereabouts(s)[id] == 0;
  }

  lemma DispatchAccounted(c: Setup, s: State)
    requires ValidSetup(c) && Ordered(c, s) && Accounted(c, s) && Enabled(c, s, Dispatch)
    ensures Accounted(c, Step(c, s, Dispatch))
  {
    NextIsNew(c, s);
    SpreadDispatch(s.inFlight, s.incoming, s.outgoing, s.flushed, s.queue[0]);
    assert Dispatched(c, Step(c, s, Dispatch)) == Dispatched(c, s) + 1;
  }

  lemma CompleteAccounted(c: Setup, s: State, id: Uuid)
    requires Accounted(c, s) && Enabled(c, s, Complete(id))
    ensures Accounted(c, Step(c, s, Complete(id)))
  {
    SpreadComplete(s.inFlight, s.incoming, s.outgoing, s.flushed, Record(id, c.verdict[id]));
  }

  lemma FlushAccounted(c: Setup, s: State)
    requires Accounted(c, s) && Enabled(c, s, Flush) && UpdateErrors(s.tables, s.outgoing).Ok?
    ensures Accounted(c, Step(c, s, Flush))
  {
    var s' := Step(c, s, Flush);
    SpreadFlush(s.inFlight, s.incoming, s.outgoing, s.flushed);
    assert s'.queue == s.queue && s'.unfetched == s.unfetched;
    assert Dispatched(c, s') == Dispatched(c, s);
    assert Whereabouts(s') == Whereabouts(s);
  }

  /** Fetching, swapping and finishing move no id. */
  lemma QuietAccounted(c: Setup, s: State, e: Event)
    requires Ordered(c, s) && Accounted(c, s) && Enabled(c, s, e) && (e.Fetch? || e.Swap? || e.Finish?)
    ensures Accounted(c, Step(c, s, e))
  {
    var s' := Step(c, s, e);
    SpreadSwap(s.inFlight, s.incoming, s.outgoing, s.flushed);
    assert Dispatched(c, s') == Dispatched(c, s);
    assert Whereabouts(s') == Whereabouts(s);
  }

  lemma StepAccounted(c: Setup, s: State, e: Event)
    requires ValidSetup(c) && Inv(c, s) && Enabled(c, s, e)
    ensures Accounted(c, Step(c, s, e))
  {
    match e
    case Dispatch => DispatchAccounted(c, s);
    case Complete(id) => CompleteAccounted(c, s, id);
    case Flush =>
      FlushAccepted(c, s);
      FlushAccounted(c, s);
    case _ => QuietAccounted(c, s, e);
  }

  lemma FlaggedLength(a: seq<Record>, b: seq<Record>)
    ensures |Flagged(a + b)| == |Flagged(a)| + |Flagged(b)|
    decreases |b|
  {
    if b == [] {
      assert a + b == a;
    } else {
      var init, last := b[..|b| - 1], b[|b| - 1];
      assert (a + b)[..|a + b| - 1] == a + init;
      FlaggedLength(a, init);
    }
  }

  lemma FlushTallied(c: Setup, s: State, s': State)
    requires Tallied(c, s)
    requires s'.success == s.success && s'.errors == s.errors && s'.incoming == s.incoming
    requires s'.flushed == s.flushed + s.outgoing && s'.outgoing == []
    ensures Tallied(c, s')
  {
    FlaggedLength(s.flushed, s.outgoing);
  }

  lemma CompleteTallied(c: Setup, s: State, id: Uuid)
    requires Tallied(c, s) && Enabled(c, s, Complete(id))
    ensures Tallied(c, Step(c, s, Complete(id)))
  {
    FlaggedLength(s.incoming, [Record(id, c.verdict[id])]);
  }

  lemma StepTallied(c: Setup, s: State, e: Event)
    requires ValidSetup(c) && Inv(c, s) && Enabled(c, s, e)
    ensures Tallied(c, Step(c, s, e))
  {
    match e
    case Complete(id) => CompleteTallied(c, s, id);
    case Flush =>
      FlushAccepted(c, s);
      FlushTallied(c, s, Step(c, s, e));
    case _ =>
  }

  lemma NotMentioned(a: seq<Record>, b: seq<Record>, id: Uuid)
    requires !Mentions(a + b, id)
    ensures !Mentions(a, id) && !Mentions(b, id)
  {
    assert forall r :: r in a || r in b ==> r in a + b;
  }

  lemma StepWritten(c: Setup, s: State, e: Event)
    requires ValidSetup(c) && Inv(c, s) && Enabled(c, s, e)
    ensures Written(c, Step(c, s, e))
  {
    if e.Flush? {
      FlushAccepted(c, s);
      var s' := Step(c, s, e);
      forall r | r in s.outgoing ensures r.id in s.tables.objects && DistinctIds(s.outgoing) {
        Partition(c, s, r.id);
      }
      if s.outgoing == [] {
        assert DistinctIds(s.outgoing);
      }
      UpdateErrorsExact(s.tables, s.outgoing);
      forall r | r in s'.flushed ensures Reported(s'.tables.errors, r.id, r.message) {
        Partition(c, s, r.id);
        if r in s.flushed {
          assert Mentions(s.flushed, r.id) && !Mentions(s.outgoing, r.id);
          assert SameEntry(s.tables.errors, s'.tables.errors, r.id);
        }
      }
      forall id | !Mentions(s'.flushed, id) ensures SameEntry(c.tables.errors, s'.tables.errors, id) {
        NotMentioned(s.flushed, s.outgoing, id);
        assert SameEntry(s.tables.errors, s'.tables.errors, id);
      }
    }
  }

  lemma StepInv(c: Setup, s: State, e: Event)
    requires ValidSetup(c) && Inv(c, s) && Enabled(c, s, e)
    ensures Inv(c, Step(c, s, e))
  {
    StepOrdered(c, s, e);
    StepAccounted(c, s, e);
    StepTallied(c, s, e);
    StepWritten(c, s, e);
    StepThrottled(c, s, e);
  }

  lemma StepThrottled(c: Setup, s: State, e: Event)
    requires ValidSetup(c) && Inv(c, s) && Enabled(c, s, e)
    ensures var s' := Step(c, s, e);
            Throttled(c, s') && Truthful(c, s'.incoming) && Truthful(c, s'.outgoing) && Truthful(c, s'.flushed)
  {
  }

  lemma {:induction false} LeadsInv(c: Setup, s: State, events: seq<Event>, s': State)
    requires ValidSetup(c) && Inv(c, s) && Leads(c, s, events, s')
    ensures Inv(c, s')
    decreases |events|
  {
    if events != [] {
      StepInv(c, s, events[0]);
      LeadsInv(c, Step(c, s, events[0]), events[1..], s');
    }
  }

  // Termination

  function PhaseRank(phase: Phase): nat {
    match phase
    case Filling => 4
    case Flushing => 3
    case Head => 1
    case _ => 0
  }

  /** Falls with every step, whatever the scheduler does. */
  function Measure(s: State): nat {
    8 * |s.unfetched| + 2 * |s.queue| + s.counter + (if s.more then 4 else 0) + PhaseRank(s.phase)
  }

  lemma StepDescends(c: Setup, s: State, e: Event)
    requires ValidSetup(c) && Inv(c, s) && Enabled(c, s, e)
    ensures Measure(Step(c, s, e)) < Measure(s)
  {
    if e.Flush? {
      FlushAccepted(c, s);
    }
  }

  /** Only a finished check is stuck, provided that tasks in flight finish. */
  lemma NeverStuck(c: Setup, s: State) returns (e: Event)
    requires ValidSetup(c) && Inv(c, s) && s.phase != Done
    ensures Enabled(c, s, e)
  {
    match s.phase {
      case Head =>
        if s.more {
          var n := if |s.unfetched| < c.batch then |s.unfetched| else c.batch;
          e := Fetch(n, n == c.batch);
        } else {
          e := Finish;
        }
      case Filling =>
        if s.queue != [] {
          e := Dispatch;
        } else if s.counter <= Limit(c, s) {
          e := Swap;
        } else {
          var id :| id in s.inFlight;
          Partition(c, s, id);
          e := Complete(id);
        }
      case Flushing => e := Flush;
    }
  }

  lemma {:induction false} RunsAreShort(c: Setup, s: State, events: seq<Event>, s': State)
    requires ValidSetup(c) && Inv(c, s) && Leads(c, s, events, s')
    ensures |events| + Measure(s') <= Measure(s)
    decreases |events|
  {
    if events != [] {
      StepInv(c, s, events[0]);
      StepDescends(c, s, events[0]);
      RunsAreShort(c, Step(c, s, events[0]), events[1..], s');
    }
  }

  // Reachable states

  ghost predicate Reachable(c: Setup, s: State) {
    exists events :: Leads(c, Start(c), events, s)
  }

  lemma {:induction false} LeadsOn(c: Setup, s: State, events: seq<Event>, s': State, e: Event)
    requires Leads(c, s, events, s') && Enabled(c, s', e)
    ensures Leads(c, s, events + [e], Step(c, s', e))
    decreases |events|
  {
    var more := events + [e];
    if events == [] {
      assert more[1..] == [];
      assert Leads(c, Step(c, s, e), more[1..], Step(c, s', e));
    } else {
      assert more[1..] == events[1..] + [e];
      LeadsOn(c, Step(c, s, events[0]), events[1..], s', e);
    }
  }

  lemma ReachableStep(c: Setup, s: State, e: Event)
    requires ValidSetup(c) && Reachable(c, s) && Enabled(c, s, e)
    ensures Reachable(c, Step(c, s, e))
    ensures Measure(Step(c, s, e)) < Measure(s)
  {
    var events :| Leads(c, Start(c), events, s);
    LeadsOn(c, Start(c), events, s, e);
    ReachableInv(c, s);
    StepDescends(c, s, e);
  }

  lemma ReachableInv(c: Setup, s: State)
    requires ValidSetup(c) && Reachable(c, s)
    ensures Inv(c, s)
  {
    var events :| Leads(c, Start(c), events, s);
    StartInv(c);
    LeadsInv(c, Start(c), events, s);
  }

  /** What the running check relies on. */
  lemma ReachableFacts(c: Setup, s: State)
    requires ValidSetup(c) && Reachable(c, s)
    ensures s.counter == |s.inFlight| && s.inFlight <= c.verdict.Keys
    ensures UpdateErrors(s.tables, s.outgoing).Ok? && Consistent(s.tables)
  {
    ReachableInv(c, s);
    FlushAccepted(c, s);
    forall id | id in s.inFlight ensures id in c.verdict {
      Partition(c, s, id);
    }
    forall id | id in s.tables.errors ensures id in s.tables.objects && s.tables.errors[id] != "" {
      if Mentions(s.flushed, id) {
        var r :| r in s.flushed && r.id == id;
        assert Reported(s.tables.errors, r.id, r.message);
      } else {
        assert SameEntry(c.tables.errors, s.tables.errors, id);
      }
    }
  }

  // The throttle is tight

  /** Starting all fetched tasks, none of which finishes meanwhile. */
  lemma {:induction false} DispatchAll(c: Setup, s: State) returns (s': State)
    requires ValidSetup(c) && Reachable(c, s) && s.phase == Filling
    ensures Reachable(c, s') && s'.phase == Filling && s'.queue == []
    ensures s'.counter == s.counter + |s.queue|
    ensures s'.more == s.more && s'.unfetched == s.unfetched && s'.incoming == s.incoming
    decreases |s.queue|
  {
    s' := s;
    if s.queue != [] {
      ReachableStep(c, s, Dispatch);
      s' := DispatchAll(c, Step(c, s, Dispatch));
    }
  }

  /** Tasks finish until `left` of them are in flight. */
  lemma {:induction false} CompleteDownTo(c: Setup, s: State, left: nat) returns (s': State)
    requires ValidSetup(c) && Reachable(c, s) && s.phase == Filling && s.queue == [] && left <= s.counter
    ensures Reachable(c, s') && s'.phase == Filling && s'.queue == [] && s'.counter == left
    ensures |s'.incoming| == |s.incoming| + s.counter - left
    ensures s'.more == s.more && s'.unfetched == s.unfetched
    decreases s.counter
  {
    s' := s;
    if s.counter > left {
      ReachableFacts(c, s);
      var id :| id in s.inFlight;
      ReachableStep(c, s, Complete(id));
      s' := CompleteDownTo(c, Step(c, s, Complete(id)), left);
    }
  }

  /** From the swap to the next dispatches. */
  lemma NextRound(c: Setup, s: State, more: bool) returns (s': State)
    requires ValidSetup(c) && Reachable(c, s) && s.phase == Filling && s.queue == [] && s.more
    requires s.counter <= c.batch / 2 && |s.unfetched| >= c.batch && (!more ==> |s.unfetched| == c.batch)
    ensures Reachable(c, s') && s'.phase == Filling && s'.queue == [] && s'.more == more
    ensures s'.counter == s.counter + c.batch && s'.incoming == [] && s'.unfetched == s.unfetched[c.batch..]
  {
    ReachableInv(c, s);
    ReachableStep(c, s, Swap);
    var swapped := Step(c, s, Swap);
    ReachableFacts(c, swapped);
    ReachableStep(c, swapped, Flush);
    var flushed := Step(c, swapped, Flush);
    ReachableStep(c, flushed, Fetch(c.batch, more));
    s' := DispatchAll(c, Step(c, flushed, Fetch(c.batch, more)));
  }

  /** Both bounds are met: with two batches of objects, some schedule has a batch and a half
      in flight at once, and goes on to flush as many records at once. */
  lemma ThrottleIsTight(c: Setup) returns (busy: State, full: State)
    requires ValidSetup(c) && |c.ids| >= 2 * c.batch
    ensures Reachable(c, busy) && |busy.inFlight| == c.batch + c.batch / 2
    ensures Reachable(c, full) && full.phase == Flushing && |full.outgoing| == c.batch + c.batch / 2
  {
    var start := Start(c);
    assert Leads(c, start, [], start);
    ReachableStep(c, start, Fetch(c.batch, true));
    var first := DispatchAll(c, Step(c, start, Fetch(c.batch, true)));
    var half := CompleteDownTo(c, first, c.batch / 2);
    busy := NextRound(c, half, true);
    ReachableFacts(c, busy);
    var idle := CompleteDownTo(c, busy, 0);
    ReachableStep(c, idle, Swap);
    full := Step(c, idle, Swap);
  }

  // The main results

  /** How many tasks have finished in a run. */
  function Completions(events: seq<Event>): nat {
    if events == [] then 0 else (if events[0].Complete? then 1 else 0) + Completions(events[1..])
  }

  lemma {:induction false} CompletedCounts(c: Setup, s: State, events: seq<Event>, s': State)
    requires Leads(c, s, events, s')
    ensures Completed(s') == Completed(s) + Completions(events)
    decreases |events|
  {
    if events != [] {
      CompletedCounts(c, Step(c, s, events[0]), events[1..], s');
    }
  }

  /** In every state of every interleaving: the database has accepted all flushes, the
      number of tasks in flight and the size of a flush are bounded, progress counts
      exactly the finished tasks, and the run so far is linear in the number of objects. */
  lemma EveryRunIsSafe(c: Setup, events: seq<Event>, s: State)
    requires ValidSetup(c) && Leads(c, Start(c), events, s)
    ensures s.phase != Failed
    ensures s.counter == |s.inFlight| <= c.batch + c.batch / 2
    ensures |s.outgoing| <= c.batch + c.batch / 2
    ensures Completed(s) == c.success + c.errors + Dispatched(c, s) - |s.inFlight|
    ensures Completed(s) == c.success + c.errors + Completions(events)
    ensures Completed(s) <= c.success + c.errors + |c.ids|
    ensures |events| <= 8 * |c.ids| + 5
  {
    StartInv(c);
    LeadsInv(c, Start(c), events, s);
    RunsAreShort(c, Start(c), events, s);
    CompletedCounts(c, Start(c), events, s);
    assert |Whereabouts(s)| == |multiset(c.ids[..Dispatched(c, s)])| == Dispatched(c, s);
  }

  /** A run that cannot go on has finished: no schedule deadlocks. */
  lemma MaximalRunsFinish(c: Setup, events: seq<Event>, s: State)
    requires ValidSetup(c) && Leads(c, Start(c), events, s)
    requires forall e :: !Enabled(c, s, e)
    ensures s.phase == Done
  {
    StartInv(c);
    LeadsInv(c, Start(c), events, s);
    if s.phase != Done {
      var e := NeverStuck(c, s);
    }
  }

  lemma DistinctLength(records: seq<Record>)
    requires DistinctIds(records)
    ensures |Ids(records)| == |records|
  {
    if records != [] {
      var init, last := records[..|records| - 1], records[|records| - 1];
      OneMore(init, last, map[]);
      assert records == init + [last];
      DistinctLength(init);
    }
  }

  /** Any run that ends has done what the sequential check does: the error table holds
      exactly the failures, whatever it held before, and progress has counted them. */
  lemma PipelineRefinesSequentialCheck(c: Setup, events: seq<Event>, s: State)
    requires ValidSetup(c) && Leads(c, Start(c), events, s) && s.phase == Done
    ensures s.tables == CheckEach(c.tables, c.ids, c.verdict)
    ensures s.tables == c.tables.(errors := Failures(c.tables.objects, c.verdict))
    ensures Completed(s) == c.success + c.errors + |c.tables.objects|
    ensures s.errors == c.errors + |s.tables.errors|
  {
    StartInv(c);
    LeadsInv(c, Start(c), events, s);
    DoneIsExact(c, s);
  }

  lemma DoneIsExact(c: Setup, s: State)
    requires ValidSetup(c) && Inv(c, s) && s.phase == Done
    ensures s.tables == CheckEach(c.tables, c.ids, c.verdict)
    ensures s.tables == c.tables.(errors := Failures(c.tables.objects, c.verdict))
    ensures Completed(s) == c.success + c.errors + |c.tables.objects|
    ensures s.errors == c.errors + |s.tables.errors|
  {
    DoneFlushedAll(c, s);
    DoneErrors(c, s);
    CheckEachIsFailures(c.tables, c.ids, c.verdict);
    CountFlushed(c, s);
  }

  lemma DoneFlushedAll(c: Setup, s: State)
    requires ValidSetup(c) && Inv(c, s) && s.phase == Done
    ensures forall id :: Mentions(s.flushed, id) <==> id in c.tables.objects
    ensures s.incoming == [] && s.outgoing == []
  {
    assert s.inFlight == {} && c.ids[..Dispatched(c, s)] == c.ids;
    forall id ensures Mentions(s.flushed, id) <==> id in c.tables.objects {
      Partition(c, s, id);
    }
  }

  lemma DoneErrors(c: Setup, s: State)
    requires ValidSetup(c) && Truthful(c, s.flushed) && Written(c, s)
    requires forall id :: Mentions(s.flushed, id) <==> id in c.tables.objects
    ensures s.tables.errors == Failures(c.tables.objects, c.verdict)
  {
    var failures := Failures(c.tables.objects, c.verdict);
    forall id
      ensures id in s.tables.errors <==> id in failures
      ensures id in failures ==> s.tables.errors[id] == failures[id]
    {
      if Mentions(s.flushed, id) {
        var r :| r in s.flushed && r.id == id;
        assert Reported(s.tables.errors, r.id, r.message);
      } else {
        assert SameEntry(c.tables.errors, s.tables.errors, id);
      }
    }
  }

  lemma CountFlushed(c: Setup, s: State)
    requires ValidSetup(c) && Inv(c, s)
    requires s.tables.errors == Failures(c.tables.objects, c.verdict)
    requires forall id :: Mentions(s.flushed, id) <==> id in c.tables.objects
    ensures |s.flushed| == |c.tables.objects|
    ensures |Flagged(s.flushed)| == |s.tables.errors|
  {
    Partition(c, s, Uuid(""));
    CountIds(s.flushed, c.tables.objects.Keys);
    FlaggedDistinct(s.flushed);
    FlaggedMembers(s.flushed);
    forall id ensures Mentions(Flagged(s.flushed), id) <==> id in s.tables.errors.Keys {
      if id in s.tables.errors {
        assert Mentions(s.flushed, id);
        var r :| r in s.flushed && r.id == id;
        assert r in Flagged(s.flushed);
      }
    }
    CountIds(Flagged(s.flushed), s.tables.errors.Keys);
  }

  lemma CountIds(records: seq<Record>, ids: set<Uuid>)
    requires DistinctIds(records)
    requires forall id :: Mentions(records, id) <==> id in ids
    ensures |records| == |ids|
  {
    DistinctLength(records);
    forall id ensures id in Ids(records) <==> id in ids {
      assert Mentions(records, id) <==> id in Ids(records);
    }
    assert Ids(records) == ids;
  }
}
