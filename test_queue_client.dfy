/**
 * The in-memory reference implementation of the job queue: one owned list of job records and
 * a `largestId` counter, with each public operation one atomic step over them. The clock is
 * the `now` parameter (in ticks); the worker name, the queue type of the cancel, complete and
 * lookup calls, `returnDefinition` and `forceOneActiveJobGroup` are accepted and, as in the
 * implementation, have no effect.
 */
module TestQueue {
  import opened Wrappers
  import opened JobModel
  import opened QueueSpec

  class TestQueueClient {
    var jobs: seq<Job>
    var largestId: int

    ghost predicate Valid()
      reads this
    {
      StoreInvariant(jobs, largestId)
    }

    constructor ()
      ensures Valid() && jobs == [] && largestId == 1
    {
      jobs := [];
      largestId := 1;
    }

    /** The cancel loop: selected Created jobs become Cancelled, selected Running jobs get the flag. */
    method CancelWhere(sel: Selector)
      requires Valid()
      modifies this
      ensures Valid() && largestId == old(largestId)
      ensures jobs == Cancel(old(jobs), sel)
    {
      var i := 0;
      while i < |jobs|
        invariant 0 <= i <= |jobs| == |old(jobs)|
        invariant largestId == old(largestId)
        invariant forall k :: 0 <= k < i ==>
          jobs[k] == if Selects(sel, old(jobs)[k]) then CancelJob(old(jobs)[k]) else old(jobs)[k]
        invariant forall k :: i <= k < |jobs| ==> jobs[k] == old(jobs)[k]
      {
        if Selects(sel, jobs[i]) {
          if jobs[i].status == Created {
            jobs := jobs[i := jobs[i].(status := Cancelled)];
          }
          if jobs[i].status == Running {
            jobs := jobs[i := jobs[i].(cancelRequested := true)];
          }
        }
        i := i + 1;
      }
      forall k | 0 <= k < |jobs| ensures jobs[k] == Cancel(old(jobs), sel)[k] {
        CancelAt(old(jobs), sel, k);
      }
      CancelEffect(old(jobs), sel);
      SameIdentityKeepsInvariant(old(jobs), jobs, largestId);
    }

    method CancelJobByGroupId(queueType: QueueTypeTag, groupId: int)
      requires Valid()
      modifies this
      ensures Valid() && largestId == old(largestId)
      ensures jobs == Cancel(old(jobs), InGroup(groupId))
    {
      CancelWhere(InGroup(groupId));
    }

    method CancelJobById(queueType: QueueTypeTag, jobId: int)
      requires Valid()
      modifies this
      ensures Valid() && largestId == old(largestId)
      ensures jobs == Cancel(old(jobs), HasId(jobId))
    {
      CancelWhere(HasId(jobId));
    }

    /**
     * Writes the caller's status and result onto the stored job, then cancels the caller's
     * group on a failure when asked to. `found` is false when no job has the id: the call then
     * fails before writing anything.
     */
    method CompleteJob(jobInfo: Job, requestCancellationOnFailure: bool) returns (found: bool)
      requires Valid()
      modifies this
      ensures Valid() && largestId == old(largestId)
      ensures var r := CompleteSpec(old(jobs), jobInfo, requestCancellationOnFailure);
        found == r.Some? && jobs == if found then r.value else old(jobs)
      ensures found <==> exists i :: 0 <= i < |old(jobs)| && old(jobs)[i].id == jobInfo.id
    {
      CompleteFindsJob(jobs, jobInfo, requestCancellationOnFailure);
      var m := FirstMatch(jobs, HasId(jobInfo.id));
      if m.None? {
        return false;
      }
      var k := m.value;
      jobs := jobs[k := jobs[k].(status := jobInfo.status, result := jobInfo.result)];
      assert SameIdentity(old(jobs), jobs);
      SameIdentityKeepsInvariant(old(jobs), jobs, largestId);
      if requestCancellationOnFailure && jobInfo.status == Failed {
        CancelJobByGroupId(jobInfo.queueType, jobInfo.groupId);
      }
      found := true;
    }

    /**
     * Repeats single dequeues until the requested number of jobs is claimed or a dequeue finds
     * nothing. Each dequeue reads the clock afresh: the n-th one (from 0) runs at `clock(n)`.
     */
    method DequeueJobs(queueType: QueueTypeTag, numberOfJobsToDequeue: int, worker: string,
                       heartbeatTimeoutSec: int, clock: nat -> int) returns (dequeued: seq<Job>)
      requires Valid()
      modifies this
      ensures Valid() && largestId == old(largestId)
      ensures DequeueMany(old(jobs), queueType, numberOfJobsToDequeue, heartbeatTimeoutSec, clock, 0) == Batch(jobs, dequeued)
      ensures |dequeued| <= if numberOfJobsToDequeue < 0 then 0 else numberOfJobsToDequeue
      ensures |dequeued| < numberOfJobsToDequeue ==>
        forall i :: 0 <= i < |jobs| ==> !Claimable(jobs[i], queueType, clock(|dequeued|), heartbeatTimeoutSec)
    {
      dequeued := [];
      while |dequeued| < numberOfJobsToDequeue
        invariant Valid() && largestId == old(largestId)
        invariant var rest := DequeueMany(jobs, queueType, numberOfJobsToDequeue - |dequeued|, heartbeatTimeoutSec, clock, |dequeued|);
          DequeueMany(old(jobs), queueType, numberOfJobsToDequeue, heartbeatTimeoutSec, clock, 0)
            == Batch(rest.jobs, dequeued + rest.claimed)
        decreases numberOfJobsToDequeue - |dequeued|
      {
        ghost var before := jobs;
        ghost var n := |dequeued|;
        var job := Dequeue(queueType, worker, heartbeatTimeoutSec, clock(|dequeued|), None, false);
        if job.Some? {
          DequeueManyAfterOne(before, queueType, numberOfJobsToDequeue - n, heartbeatTimeoutSec, clock, n, dequeued);
          dequeued := dequeued + [job.value];
        } else {
          DequeueManyEnds(before, queueType, numberOfJobsToDequeue - n, heartbeatTimeoutSec, clock, n);
          assert dequeued + [] == dequeued;
          break;
        }
      }
      if |dequeued| >= numberOfJobsToDequeue {
        DequeueManyEnds(jobs, queueType, numberOfJobsToDequeue - |dequeued|, heartbeatTimeoutSec, clock, |dequeued|);
        assert dequeued + [] == dequeued;
      }
      DequeueManyBound(old(jobs), queueType, numberOfJobsToDequeue, heartbeatTimeoutSec, clock, 0);
    }

    /**
     * Claims the first job of the queue type that is Created or Running with an expired lease:
     * it becomes Running with a fresh heartbeat and is returned; None when there is no such job.
     * `jobId` and `checkTimeoutJobsOnly` do not restrict the choice.
     */
    method Dequeue(queueType: QueueTypeTag, worker: string, heartbeatTimeoutSec: int, now: int,
                   jobId: Option<int>, checkTimeoutJobsOnly: bool) returns (job: Option<Job>)
      requires Valid()
      modifies this
      ensures Valid() && largestId == old(largestId)
      ensures var d := DequeueSpec(old(jobs), queueType, heartbeatTimeoutSec, now);
        jobs == d.jobs && job == if d.index.Some? then Some(d.jobs[d.index.value]) else None
      ensures job.None? <==> forall i :: 0 <= i < |old(jobs)| ==> !Claimable(old(jobs)[i], queueType, now, heartbeatTimeoutSec)
      ensures job.Some? ==> job.value.status == Running && job.value.heartbeat == now && job.value.queueType == queueType
    {
      DequeueEffect(jobs, queueType, heartbeatTimeoutSec, now);
      var m := FirstMatch(jobs, ClaimableIn(queueType, now, heartbeatTimeoutSec));
      if m.Some? {
        var k := m.value;
        jobs := jobs[k := jobs[k].(status := Running)];
        jobs := jobs[k := jobs[k].(heartbeat := now)];
        job := Some(jobs[k]);
      } else {
        job := None;
      }
      SameIdentityKeepsInvariant(old(jobs), jobs, largestId);
    }

    /** One definition of an enqueue call: reuse the stored job with that definition or append a new one. */
    method EnqueueOne(queueType: QueueTypeTag, groupId: int, now: int, definition: string, results: seq<Job>)
      returns (results': seq<Job>)
      modifies this
      ensures EnqueueStep(EnqueueState(old(jobs), old(largestId), results), queueType, groupId, now, definition)
           == EnqueueState(jobs, largestId, results')
    {
      var m := FirstMatch(jobs, HasDefinition(definition));
      if m.Some? {
        results' := results + [jobs[m.value]];
      } else {
        var newJob := Job(id := largestId, groupId := groupId, queueType := queueType, definition := definition,
                          status := Created, cancelRequested := false, createDate := now, heartbeat := now,
                          result := None);
        results' := results + [newJob];
        jobs := jobs + [newJob];
        largestId := largestId + 1;
      }
    }

    /**
     * Returns one job per definition, in input order: the stored job with that definition if
     * there is one, else a new Created job with the next id. All new jobs share the caller's
     * group id or, without one, the counter value taken once at the start.
     */
    method Enqueue(queueType: QueueTypeTag, definitions: seq<string>, groupId: Option<int>,
                   forceOneActiveJobGroup: bool, now: int) returns (result: seq<Job>)
      requires Valid()
      modifies this
      ensures Valid()
      ensures EnqueueSpec(old(jobs), old(largestId), queueType, definitions, groupId, now) == EnqueueState(jobs, largestId, result)
      ensures |result| == |definitions| && forall i :: 0 <= i < |definitions| ==> result[i].definition == definitions[i]
      ensures |old(jobs)| <= |jobs| && jobs[..|old(jobs)|] == old(jobs)
      ensures forall k :: |old(jobs)| <= k < |jobs| ==>
        jobs[k].status == Created && jobs[k].queueType == queueType && jobs[k].groupId == GroupIdFor(groupId, old(largestId)) &&
        old(largestId) <= jobs[k].id
    {
      result := [];
      var gId: int;
      if groupId.Some? {
        gId := groupId.value;
      } else {
        gId := largestId;
        largestId := largestId + 1;
      }
      ghost var start := EnqueueState(old(jobs), largestId, []);
      var i := 0;
      while i < |definitions|
        invariant 0 <= i <= |definitions|
        invariant EnqueueAll(start, queueType, gId, now, definitions[..i]) == EnqueueState(jobs, largestId, result)
      {
        EnqueueAllSnoc(start, queueType, gId, now, definitions, i);
        result := EnqueueOne(queueType, gId, now, definitions[i], result);
        i := i + 1;
      }
      assert definitions[..i] == definitions;
      assert EnqueueSpec(old(jobs), old(largestId), queueType, definitions, groupId, now) == EnqueueState(jobs, largestId, result);
      assert Valid() && |old(jobs)| <= |jobs| && jobs[..|old(jobs)|] == old(jobs) &&
        forall k :: |old(jobs)| <= k < |jobs| ==>
          jobs[k].status == Created && jobs[k].queueType == queueType && jobs[k].groupId == GroupIdFor(groupId, old(largestId)) &&
          old(largestId) <= jobs[k].id
      by {
        EnqueueCreates(old(jobs), old(largestId), queueType, definitions, groupId, now);
      }
      assert |result| == |definitions| && forall i :: 0 <= i < |definitions| ==> result[i].definition == definitions[i] by {
        EnqueueResults(old(jobs), old(largestId), queueType, definitions, groupId, now);
      }
    }

    /** The jobs of a group, in store order, whatever their queue type. */
    function GetJobByGroupId(queueType: QueueTypeTag, groupId: int, returnDefinition: bool): (r: seq<Job>)
      reads this
      ensures forall j :: j in r <==> j in jobs && j.groupId == groupId
    {
      Filter(jobs, InGroup(groupId))
    }

    /** The first stored job with the id, or None. */
    function GetJobById(queueType: QueueTypeTag, jobId: int, returnDefinition: bool): (r: Option<Job>)
      reads this
      ensures r.Some? ==> r.value in jobs && r.value.id == jobId
      ensures r.None? <==> forall i :: 0 <= i < |jobs| ==> jobs[i].id != jobId
    {
      FirstMatchIsFirst(jobs, HasId(jobId));
      match FirstMatch(jobs, HasId(jobId))
      case None => None
      case Some(k) => Some(jobs[k])
    }

    /** The stored jobs whose id is among `jobIds`, in store order, each once. */
    function GetJobsByIds(queueType: QueueTypeTag, jobIds: seq<int>, returnDefinition: bool): (r: seq<Job>)
      reads this
      ensures forall j :: j in r <==> j in jobs && j.id in jobIds
    {
      Filter(jobs, IdIn(jobIds))
    }

    /**
     * Sets the heartbeat and result of the stored job with the caller's id and returns its
     * cancel flag; for an unknown id returns false and changes nothing.
     */
    method PutJobHeartbeat(jobInfo: Job, now: int) returns (cancel: bool)
      requires Valid()
      modifies this
      ensures Valid() && largestId == old(largestId)
      ensures HeartbeatSpec(old(jobs), jobInfo, now) == Beat(jobs, cancel)
      ensures (forall i :: 0 <= i < |old(jobs)| ==> old(jobs)[i].id != jobInfo.id) ==> !cancel && jobs == old(jobs)
    {
      HeartbeatEffect(jobs, jobInfo, now);
      cancel := false;
      var m := FirstMatch(jobs, HasId(jobInfo.id));
      if m.Some? {
        var k := m.value;
        jobs := jobs[k := jobs[k].(heartbeat := now)];
        jobs := jobs[k := jobs[k].(result := jobInfo.result)];
        cancel := jobs[k].cancelRequested;
      }
      SameIdentityKeepsInvariant(old(jobs), jobs, largestId);
    }
  }
}
