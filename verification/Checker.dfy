/** The check as the program runs it: a loop over a portal, two vectors that are swapped,
    and detached tasks that may resume wherever the loop is suspended. */
module Checker {
  import opened Base
  import opened Relations
  import opened Checking
  import P = CheckPipeline
  import D = Database

  class CheckProgress {
    var success: nat
    var errors: nat
    var total: nat

    constructor ()
      ensures success == errors == total == 0
    {
      success, errors, total := 0, 0, 0;
    }

    function Completed(): nat
      reads this
    {
      success + errors
    }

    /** Counts the outcome of one object. */
    method Count(message: string)
      modifies this`success, this`errors
      ensures success == old(success) + if message == "" then 1 else 0
      ensures errors == old(errors) + if message == "" then 0 else 1
    {
      if message == "" {
        success := success + 1;
      } else {
        errors := errors + 1;
      }
    }
  }

  class CheckRun {
    const probe: Probe
    const disk: map<Uuid, FileState>
    const rows: map<Uuid, Row>
    const batch: nat
    const database: D.Database
    const progress: CheckProgress
    ghost const setup: P.Setup

    var more: bool
    var unfetched: seq<Uuid>
    var queue: seq<Uuid>
    var inFlight: set<Uuid>
    var counter: nat
    var incoming: seq<Record>
    var outgoing: seq<Record>
    ghost var state: P.State  // the machine state these fields stand for

    /** The real fields, read as a machine state with the given history and phase. */
    ghost predicate Mirrors(s: P.State)
      reads this, database, progress
    {
      && s.more == more && s.unfetched == unfetched && s.queue == queue
      && s.inFlight == inFlight && s.counter == counter
      && s.incoming == incoming && s.outgoing == outgoing
      && s.tables == database.Tables()
      && s.success == progress.success && s.errors == progress.errors
    }

    ghost predicate Valid()
      reads this, database, progress
    {
      && Mirrors(state)
      && P.Reachable(setup, state)
      && P.ValidSetup(setup)
      && setup.tables.objects == rows && rows.Keys <= disk.Keys && setup.verdict == Verdicts(probe, disk, rows)
      && setup.batch == batch
    }

    /** The machine's own step. */
    ghost method Advance(e: P.Event)
      requires P.ValidSetup(setup) && P.Reachable(setup, state) && P.Enabled(setup, state, e)
      modifies this`state
      ensures state == P.Step(setup, old(state), e) && P.Reachable(setup, state)
      ensures P.Measure(state) < old(P.Measure(state))
    {
      P.ReachableStep(setup, state, e);
      state := P.Step(setup, state, e);
    }

    /** `ids` is the order of the cursor. */
    constructor (probe: Probe, disk: map<Uuid, FileState>, ids: seq<Uuid>, batch: nat,
                 database: D.Database, progress: CheckProgress)
      requires database.Valid() && batch >= 1 && database.objects.Keys <= disk.Keys
      requires forall id :: id in ids <==> id in database.objects
      requires forall i, j :: 0 <= i < j < |ids| ==> ids[i] != ids[j]
      ensures Valid() && state == P.Start(setup)
      ensures this.database == database && this.progress == progress
      ensures setup == P.Setup(database.Tables(), ids, Verdicts(probe, disk, database.objects), batch,
                               progress.success, progress.errors)
    {
      this.probe, this.disk, this.rows, this.batch := probe, disk, database.objects, batch;
      this.database, this.progress := database, progress;
      ghost var c := P.Setup(database.Tables(), ids, Verdicts(probe, disk, database.objects), batch,
                             progress.success, progress.errors);
      more, unfetched, queue, inFlight, counter := true, ids, [], {}, 0;
      incoming, outgoing := [], [];
      setup, state := c, P.Start(c);
      new;
      assert P.Leads(setup, P.Start(setup), [], state);
    }

    /** A task in flight may complete, and its object has the verdict of its own check. */
    lemma TaskFacts(id: Uuid)
      requires Valid() && id in inFlight
      ensures P.Enabled(setup, state, P.Complete(id)) && counter > 0
      ensures id in rows && CheckObject(probe, disk[id], rows[id]) == setup.verdict[id]
    {
      P.ReachableFacts(setup, state);
    }

    /** One task resumes: it counts its outcome, appends its record and lets go of the counter. */
    method FinishTask(id: Uuid)
      requires Valid() && id in inFlight
      modifies this`inFlight, this`counter, this`incoming, this`state, progress`success, progress`errors
      ensures Valid()
      ensures P.Enabled(setup, old(state), P.Complete(id))
      ensures state == P.Step(setup, old(state), P.Complete(id))
      ensures P.Measure(state) < old(P.Measure(state))
    {
      TaskFacts(id);
      var message := CheckObject(probe, disk[id], rows[id]);
      Advance(P.Complete(id));
      progress.Count(message);
      incoming := incoming + [Record(id, message)];
      inFlight := inFlight - {id};
      counter := counter - 1;
      assert Mirrors(state);
    }

    /** The loop is suspended: any tasks in flight may resume, in any order. */
    method Suspend()
      requires Valid()
      modifies this`inFlight, this`counter, this`incoming, this`state, progress`success, progress`errors
      ensures Valid() && state.phase == old(state.phase)
      ensures P.Measure(state) <= old(P.Measure(state)) && counter <= old(counter)
    {
      while *
        invariant Valid() && state.phase == old(state.phase)
        invariant P.Measure(state) <= old(P.Measure(state)) && counter <= old(counter)
        decreases P.Measure(state)
      {
        if inFlight == {} {
          break;
        }
        var id :| id in inFlight;
        FinishTask(id);
      }
    }

    /** `counter.await(limit)`: suspended until at most `limit` tasks are in flight. */
    method Await(limit: nat)
      requires Valid()
      modifies this`inFlight, this`counter, this`incoming, this`state, progress`success, progress`errors
      ensures Valid() && state.phase == old(state.phase) && counter <= limit
      ensures P.Measure(state) <= old(P.Measure(state))
    {
      Suspend();
      while counter > limit
        invariant Valid() && state.phase == old(state.phase)
        invariant P.Measure(state) <= old(P.Measure(state))
        decreases counter
      {
        P.ReachableFacts(setup, state);
        var id :| id in inFlight;
        FinishTask(id);
      }
    }

    /** `objects.next()`: up to a batch of rows; the portal ends with its last rows or with
        an empty batch after them. */
    method Next()
      requires Valid() && state.phase == P.Head && more
      modifies this`unfetched, this`queue, this`more, this`state
      ensures Valid() && state.phase == P.Filling
      ensures P.Measure(state) < old(P.Measure(state))
    {
      ghost var least := if |unfetched| < batch then |unfetched| else batch;
      assert least <= batch && least <= |unfetched| && (least == 0 ==> least != batch);
      var n: nat, still: bool :|
        && n <= batch && n <= |unfetched|
        && (n == 0 ==> !still) && (!still ==> n == |unfetched|);
      Advance(P.Fetch(n, still));
      queue, unfetched, more := unfetched[..n], unfetched[n..], still;
    }

    /** `check_object_task` up to its suspension. */
    method StartTask()
      requires Valid() && state.phase == P.Filling && queue != []
      modifies this`queue, this`inFlight, this`counter, this`state
      ensures Valid() && state.phase == P.Filling && |queue| < old(|queue|)
      ensures P.Measure(state) < old(P.Measure(state))
    {
      Advance(P.Dispatch);
      inFlight, counter, queue := inFlight + {queue[0]}, counter + 1, queue[1..];
    }

    method SwapLists()
      requires Valid() && state.phase == P.Filling && queue == []
      requires counter <= if more then batch / 2 else 0
      modifies this`incoming, this`outgoing, this`state
      ensures Valid() && state.phase == P.Flushing
      ensures P.Measure(state) < old(P.Measure(state))
    {
      Advance(P.Swap);
      incoming, outgoing := outgoing, incoming;
    }

    /** Writes the batch, which the database never refuses, and clears it. */
    method FlushBatch()
      requires Valid() && state.phase == P.Flushing
      modifies this`outgoing, this`state, database`errors
      ensures Valid() && state.phase == P.Head
      ensures P.Measure(state) < old(P.Measure(state))
    {
      P.ReachableFacts(setup, state);
      Advance(P.Flush);
      var written := database.UpdateObjectErrors(outgoing);
      outgoing := [];
    }

    /** `check`, from the loop to the commit. It ends whatever the schedule, and then the
        error table holds exactly the failures. */
    method Run()
      requires Valid() && state.phase == P.Head
      modifies this, database`errors, progress`success, progress`errors
      ensures Valid() && state.phase == P.Done && database.Valid()
      ensures database.Tables() == CheckEach(setup.tables, setup.ids, setup.verdict)
      ensures database.Tables() == setup.tables.(errors := Failures(setup.tables.objects, setup.verdict))
      ensures progress.Completed() == setup.success + setup.errors + |setup.tables.objects|
      ensures progress.errors == setup.errors + |database.errors|
    {
      while more
        invariant Valid() && state.phase == P.Head
        decreases P.Measure(state)
      {
        ghost var measure := P.Measure(state);
        Suspend();
        Next();
        while queue != []
          invariant Valid() && state.phase == P.Filling && P.Measure(state) < measure
          decreases |queue|
        {
          StartTask();
          Suspend();
        }
        Await(if more then batch / 2 else 0);
        SwapLists();
        Suspend();
        FlushBatch();
      }
      Conclude();
    }

    /** The end of the loop: what has been written is final. */
    ghost method Conclude()
      requires Valid() && state.phase == P.Head && !more
      modifies this`state
      ensures Valid() && state.phase == P.Done && database.Valid()
      ensures database.Tables() == CheckEach(setup.tables, setup.ids, setup.verdict)
      ensures database.Tables() == setup.tables.(errors := Failures(setup.tables.objects, setup.verdict))
      ensures progress.Completed() == setup.success + setup.errors + |setup.tables.objects|
      ensures progress.errors == setup.errors + |database.errors|
    {
      Advance(P.Finish);
      P.ReachableFacts(setup, state);
      P.ReachableInv(setup, state);
      P.DoneIsExact(setup, state);
    }
  }
}
