/**
  SnapshotSubmissionTask::operator() as it is written: one method that runs the header, data and
  tail sections over the shared tables. Running it with nothing in between has exactly the effect
  of taking the steps of one task of SnapshotProtocol from START to DONE.
 */
module SubmissionTask {
  import opened Types
  import opened IterationSync
  import opened IterationGates
  import opened SnapshotProtocol
  import opened TailCounters

  /** Task j takes all its steps, until it is done or has to wait. */
  ghost function Alone(o: Op, j: nat): (r: Op)
    requires j < |o.tasks|
    ensures |r.tasks| == |o.tasks|
    decreases DONE - o.tasks[j].phase, |o.tasks[j].sub.events| - o.tasks[j].sent
  {
    if Enabled(o, j) then Alone(Stepped(o, j), j) else o
  }

  /** None of the waits of task j has anything to wait for, once it has done its own part. */
  ghost predicate Unhindered(o: Op, j: nat)
    requires j < |o.tasks|
  {
    var s := o.tasks[j].sub;
    var g := if s.parts.header then HeaderCompleted(o.gates, s.iter) else o.gates;
    && (s.HasData() ==> HeaderPassed(g, s.iter))
    && (s.parts.tail ==> Drained(if s.HasData() then DataRemoved(g, s.iter) else g, s.iter))
  }

  /** What a step does to the task itself. */
  lemma StepTask(o: Op, j: nat)
    requires j < |o.tasks| && Enabled(o, j)
    ensures var t, t' := o.tasks[j], Stepped(o, j).tasks[j];
            && Alone(o, j) == Alone(Stepped(o, j), j)
            && t'.sub == t.sub && t'.phase == NextPhase(o, t)
            && t'.sent == (if t.phase == PUBLISH_DATA && t'.phase == PUBLISH_DATA then t.sent + 1 else t.sent)
  {
  }

  /** Three sections the submission does not carry. */
  lemma SkipThree(o: Op, j: nat) returns (o': Op)
    requires j < |o.tasks| && ((o.tasks[j].phase == PUBLISH_DATA && !o.tasks[j].sub.HasData())
                               || (o.tasks[j].phase in {AWAIT_DRAIN, MARK_TAIL} && !o.tasks[j].sub.parts.tail))
    ensures o' == o.(tasks := o'.tasks) && |o'.tasks| == |o.tasks| && Alone(o, j) == Alone(o', j)
    ensures o'.tasks[j].sub == o.tasks[j].sub && o'.tasks[j].phase == o.tasks[j].phase + 3
  {
    var a := Stepped(o, j);
    var b := Stepped(a, j);
    StepTask(o, j);
    StepTask(a, j);
    StepTask(b, j);
    o' := Stepped(b, j);
  }

  /** The tables a running snapshot shares with the scheduler thread and the other tasks. */
  class SnapshotTaskRunner {
    const name: string
    const sync: SnapshotIterationSynchronizer
    const gates: IterationGateTable
    const counters: TailEventCounters
    var queue: seq<Message>
    var tailLog: map<nat, nat>
    var promises: nat

    constructor (name: string, sync: SnapshotIterationSynchronizer, gates: IterationGateTable, counters: TailEventCounters)
      ensures this.name == name && this.sync == sync && this.gates == gates && this.counters == counters
      ensures queue == [] && tailLog == map[] && promises == 0
    {
      this.name, this.sync, this.gates, this.counters := name, sync, gates, counters;
      queue, tailLog, promises := [], map[], 0;
    }

    ghost predicate CountersMatch(m: map<nat, nat>)
      reads this, counters
    {
      forall i: nat :: counters.Entry(name, i) == if i in m then Some(m[i]) else None
    }

    /** The tables hold what the operation o says. */
    ghost predicate Matches(o: Op)
      reads this, sync, gates, counters
    {
      && sync.View(name) == o.sync
      && gates.gates == o.gates
      && CountersMatch(o.counters)
      && queue == o.log
      && tailLog == o.taken
      && promises == o.promises
    }

    ghost predicate At(o: Op, j: nat, sub: Submission, phase: Phase)
      reads this, sync, gates, counters
    {
      Matches(o) && j < |o.tasks| && o.tasks[j].sub == sub && o.tasks[j].phase == phase
    }

    method HeaderSection(sub: Submission, j: nat, ghost o: Op) returns (ghost o': Op)
      requires At(o, j, sub, PUBLISH_HEADER)
      modifies this, gates
      ensures At(o', j, sub, AWAIT_GATE) && Alone(o, j) == Alone(o', j) && o'.tasks[j].sent == o.tasks[j].sent
      ensures o'.gates == if sub.parts.header then HeaderCompleted(o.gates, sub.iter) else o.gates
    {
      if sub.parts.header {
        queue := queue + [HeaderMsg(sub.iter)];
        gates.CompleteHeaderGate(sub.iter);
      }
      StepTask(o, j);
      o' := Stepped(o, j);
      StepTask(o', j);
      o' := Stepped(o', j);
    }

    /** publishData: one message per event, in order. */
    method PublishData(sub: Submission, j: nat, ghost o: Op) returns (sent: nat, ghost o': Op)
      requires At(o, j, sub, PUBLISH_DATA) && sub.HasData() && o.tasks[j].sent == 0
      modifies this`queue
      ensures At(o', j, sub, ADD_COUNT) && Alone(o, j) == Alone(o', j)
      ensures sent == |sub.events| == o'.tasks[j].sent && o'.gates == o.gates
    {
      sent, o' := 0, o;
      for k := 0 to |sub.events|
        invariant At(o', j, sub, PUBLISH_DATA) && Alone(o, j) == Alone(o', j)
        invariant sent == k == o'.tasks[j].sent && o'.gates == o.gates
      {
        queue := queue + [DataMsg(sub.iter, j, sub.events[k])];
        sent := sent + 1;
        StepTask(o', j);
        o' := Stepped(o', j);
      }
      StepTask(o', j);
      o' := Stepped(o', j);
    }

    /** Add the batch to the iteration's count. */
    method AddCount(sub: Submission, j: nat, sent: nat, ghost o: Op) returns (ghost o': Op)
      requires At(o, j, sub, ADD_COUNT) && sub.HasData() && sent == o.tasks[j].sent
      modifies counters
      ensures At(o', j, sub, DATA_DONE) && Alone(o, j) == Alone(o', j) && o'.gates == o.gates
    {
      counters.AddEvents(name, sub.iter, sent);
      assert CountersMatch(CountersAfter(o.counters, o.tasks[j]));
      StepTask(o, j);
      o' := Stepped(o, j);
    }

    /** Let the tail pass. */
    method CompleteData(sub: Submission, j: nat, ghost o: Op) returns (ghost o': Op)
      requires At(o, j, sub, DATA_DONE) && sub.HasData()
      modifies gates
      ensures At(o', j, sub, AWAIT_DRAIN) && Alone(o, j) == Alone(o', j)
      ensures o'.gates == DataRemoved(o.gates, sub.iter)
    {
      gates.DataCompleted(sub.iter);
      StepTask(o, j);
      o' := Stepped(o, j);
    }

    method DataSection(sub: Submission, j: nat, ghost o: Op) returns (ghost o': Op)
      requires At(o, j, sub, AWAIT_GATE) && o.tasks[j].sent == 0
      requires sub.HasData() ==> HeaderPassed(o.gates, sub.iter)
      modifies this`queue, gates, counters
      ensures At(o', j, sub, AWAIT_DRAIN) && Alone(o, j) == Alone(o', j)
      ensures o'.gates == if sub.HasData() then DataRemoved(o.gates, sub.iter) else o.gates
    {
      StepTask(o, j);
      o' := Stepped(o, j);
      if sub.HasData() {
        var sent;
        sent, o' := PublishData(sub, j, o');
        o' := AddCount(sub, j, sent, o');
        o' := CompleteData(sub, j, o');
      } else {
        o' := SkipThree(o', j);
      }
    }

    /** Log the iteration's count, and drop its counter. */
    method LogCount(sub: Submission, j: nat, ghost o: Op) returns (ghost o': Op)
      requires At(o, j, sub, TAKE_COUNT) && sub.parts.tail
      modifies this`tailLog, counters
      ensures At(o', j, sub, PUBLISH_TAIL) && Alone(o, j) == Alone(o', j)
    {
      var count := counters.TakeEvents(name, sub.iter);
      tailLog := tailLog[sub.iter := count];
      StepTask(o, j);
      o' := Stepped(o, j);
    }

    /** The first half of the tail section: wait for the data, log the count, publish the tail. */
    method PublishTail(sub: Submission, j: nat, ghost o: Op) returns (ghost o': Op)
      requires At(o, j, sub, AWAIT_DRAIN)
      requires sub.parts.tail ==> Drained(o.gates, sub.iter)
      modifies this`queue, this`tailLog, gates, counters
      ensures At(o', j, sub, MARK_TAIL) && Alone(o, j) == Alone(o', j)
    {
      if sub.parts.tail {
        gates.ForgetIteration(sub.iter);
        StepTask(o, j);
        o' := Stepped(o, j);
        o' := LogCount(sub, j, o');
        queue := queue + [TailMsg(sub.iter)];
        StepTask(o', j);
        o' := Stepped(o', j);
      } else {
        o' := SkipThree(o, j);
      }
    }

    /** The second half: mark the iteration, and after the last submission forget the snapshot. */
    method CloseIteration(sub: Submission, j: nat, ghost o: Op) returns (ghost o': Op)
      requires At(o, j, sub, MARK_TAIL)
      modifies this`promises, sync
      ensures At(o', j, sub, FINISH) && Alone(o, j) == Alone(o', j)
      ensures forall other | other != name :: sync.View(other) == old(sync.View(other))
    {
      if sub.parts.tail {
        sync.MarkTailProcessed(name, sub.iter);
        StepTask(o, j);
        o' := Stepped(o, j);
        o' := AnswerStop(sub, j, o');
      } else {
        o' := SkipThree(o, j);
      }
    }

    /** The last tail forgets the snapshot and sets the promise. */
    method AnswerStop(sub: Submission, j: nat, ghost o: Op) returns (ghost o': Op)
      requires At(o, j, sub, REMOVE) && sub.parts.tail
      modifies this`promises, sync
      ensures At(o', j, sub, FINISH) && Alone(o, j) == Alone(o', j)
      ensures forall other | other != name :: sync.View(other) == old(sync.View(other))
    {
      if sub.last {
        sync.RemoveSnapshot(name);
        promises := promises + 1;
      }
      StepTask(o, j);
      o' := Stepped(o, j);
      StepTask(o', j);
      o' := Stepped(o', j);
    }

    /** The destructor of the task's guard: finishTask, which may go on to release the lock. */
    method EndTask(k: nat)
      modifies sync
      ensures var n := old(sync.View(name));
              sync.View(name) == if MustRelease(n, k) then Released(Decremented(n, k), k) else Decremented(n, k)
      ensures forall other | other != name :: sync.View(other) == old(sync.View(other))
    {
      var release := sync.FinishTask(name, k);
      if release {
        sync.ReleaseLock(name, k);
      }
    }

    method Finish(sub: Submission, j: nat, ghost o: Op)
      requires At(o, j, sub, FINISH)
      modifies sync
      ensures Matches(Alone(o, j)) && Alone(o, j).tasks[j].phase == DONE
      ensures forall other | other != name :: sync.View(other) == old(sync.View(other))
    {
      EndTask(sub.iter);
      FinishSteps(o, j);
    }

    method Run(sub: Submission, j: nat, ghost o: Op)
      requires At(o, j, sub, START) && o.tasks[j].sent == 0 && Unhindered(o, j)
      modifies this, sync, gates, counters
      ensures Matches(Alone(o, j)) && Alone(o, j).tasks[j].phase == DONE
      ensures forall other | other != name :: sync.View(other) == old(sync.View(other))
    {
      StepTask(o, j);
      ghost var s := Stepped(o, j);
      if sub.iter == 0 {
        return;
      }
      sync.StartTask(name, sub.iter);
      s := HeaderSection(sub, j, s);
      s := DataSection(sub, j, s);
      s := PublishTail(sub, j, s);
      s := CloseIteration(sub, j, s);
      Finish(sub, j, s);
    }
  }

  lemma FinishSteps(o: Op, j: nat)
    requires j < |o.tasks| && o.tasks[j].phase == FINISH
    ensures var o', k := Alone(o, j), o.tasks[j].sub.iter;
            && j < |o'.tasks| && o'.tasks[j].phase == DONE
            && o' == o.(tasks := o'.tasks, sync := o'.sync)
            && o'.sync == if MustRelease(o.sync, k) then Released(Decremented(o.sync, k), k) else Decremented(o.sync, k)
  {
    StepTask(o, j);
    if LastActive(o.sync, o.tasks[j].sub.iter) {
      CheckSteps(Stepped(o, j), j);
    }
  }

  lemma CheckSteps(o: Op, j: nat)
    requires j < |o.tasks| && o.tasks[j].phase == CHECK
    ensures var o', k := Alone(o, j), o.tasks[j].sub.iter;
            && j < |o'.tasks| && o'.tasks[j].phase == DONE
            && o' == o.(tasks := o'.tasks, sync := o'.sync)
            && o'.sync == if TailKnown(o.sync, k) then Released(o.sync, k) else o.sync
  {
    StepTask(o, j);
    if TailKnown(o.sync, o.tasks[j].sub.iter) {
      StepTask(Stepped(o, j), j);
    }
  }
}
