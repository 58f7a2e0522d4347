/**
 * The job record of the queue and the queries over a list of records that the in-memory
 * queue client uses: `FirstOrDefault` (FirstMatch) and `Where(...).ToList()` (Filter).
 */
module JobModel {
  import opened Wrappers

  /** A QueueType value is stored as a C# `byte`. */
  type QueueTypeTag = x: int | 0 <= x < 256

  datatype JobStatus = Created | Running | Completed | Failed | Cancelled

  predicate IsTerminal(s: JobStatus) {
    s == Completed || s == Failed || s == Cancelled
  }

  /** One `JobInfo` record; times are in ticks, a null `Result` is `None`. */
  datatype Job = Job(
    id: int,
    groupId: int,
    queueType: QueueTypeTag,
    definition: string,
    status: JobStatus,
    cancelRequested: bool,
    createDate: int,
    heartbeat: int,
    result: Option<string>)

  /** The lambdas the client passes to `FirstOrDefault`, `Any` and `Where`. */
  datatype Selector =
    | HasId(id: int)
    | HasDefinition(definition: string)
    | InGroup(groupId: int)
    | IdIn(ids: seq<int>)
    | ClaimableIn(queueType: QueueTypeTag, now: int, heartbeatTimeoutSec: int)

  /** The timeout of a lease in .NET ticks (100 ns each), as `TimeSpan.FromSeconds` gives it. */
  function LeaseTicks(heartbeatTimeoutSec: int): int {
    heartbeatTimeoutSec * 10_000_000
  }

  /** A job's lease has expired when strictly more than the timeout has passed since its heartbeat. */
  predicate LeaseExpired(j: Job, now: int, heartbeatTimeoutSec: int) {
    now - j.heartbeat > LeaseTicks(heartbeatTimeoutSec)
  }

  /** The dequeue filter: right queue type, and Created or Running with an expired lease. */
  predicate Claimable(j: Job, queueType: QueueTypeTag, now: int, heartbeatTimeoutSec: int) {
    j.queueType == queueType &&
    (j.status == Created || (j.status == Running && LeaseExpired(j, now, heartbeatTimeoutSec)))
  }

  predicate Selects(sel: Selector, j: Job) {
    match sel
    case HasId(id) => j.id == id
    case HasDefinition(d) => j.definition == d
    case InGroup(g) => j.groupId == g
    case IdIn(ids) => j.id in ids
    case ClaimableIn(qt, now, timeout) => Claimable(j, qt, now, timeout)
  }

  /** `FirstOrDefault`: the index of the first selected job, if any. */
  function FirstMatch(jobs: seq<Job>, sel: Selector): (r: Option<nat>)
    ensures r.Some? ==> r.value < |jobs|
  {
    if |jobs| == 0 then None
    else if Selects(sel, jobs[0]) then Some(0)
    else match FirstMatch(jobs[1..], sel)
      case None => None
      case Some(k) => Some(k + 1)
  }

  /**
   * FirstMatch finds the first selected job in list order, and finds nothing exactly when no
   * job is selected.
   */
  lemma {:induction false} FirstMatchIsFirst(jobs: seq<Job>, sel: Selector)
    ensures var r := FirstMatch(jobs, sel);
      (r.Some? ==> Selects(sel, jobs[r.value]) && forall i :: 0 <= i < r.value ==> !Selects(sel, jobs[i])) &&
      (r.None? <==> forall i :: 0 <= i < |jobs| ==> !Selects(sel, jobs[i]))
  {
    if |jobs| > 0 && !Selects(sel, jobs[0]) {
      FirstMatchIsFirst(jobs[1..], sel);
      var r := FirstMatch(jobs, sel);
      if r.None? {
        forall i | 0 <= i < |jobs| ensures !Selects(sel, jobs[i]) {
          if i > 0 {
            assert jobs[i] == jobs[1..][i - 1];
          }
        }
      } else {
        forall i | 0 <= i < r.value ensures !Selects(sel, jobs[i]) {
          if i > 0 {
            assert jobs[i] == jobs[1..][i - 1];
          }
        }
      }
    }
  }

  /** `Where(...).ToList()`: the selected jobs, in store order. */
  function Filter(jobs: seq<Job>, sel: Selector): (r: seq<Job>)
    ensures |r| <= |jobs|
    ensures forall j :: j in r <==> j in jobs && Selects(sel, j)
  {
    if |jobs| == 0 then []
    else if Selects(sel, jobs[0]) then [jobs[0]] + Filter(jobs[1..], sel)
    else Filter(jobs[1..], sel)
  }

  predicate IdsIncreasing(jobs: seq<Job>) {
    forall i, k :: 0 <= i < k < |jobs| ==> jobs[i].id < jobs[k].id
  }

  /**
   * What every operation of the client keeps true of its list and counter: ids are assigned
   * in increasing order, all lie below the counter, and no two jobs share a definition.
   */
  predicate StoreInvariant(jobs: seq<Job>, largestId: int) {
    1 <= largestId &&
    IdsIncreasing(jobs) &&
    (forall i :: 0 <= i < |jobs| ==> 1 <= jobs[i].id < largestId) &&
    (forall i, k :: 0 <= i < k < |jobs| ==> jobs[i].definition != jobs[k].definition)
  }

  /** Two lists hold the same records up to the fields that the client may update in place. */
  predicate SameIdentity(a: seq<Job>, b: seq<Job>) {
    |a| == |b| &&
    forall i :: 0 <= i < |a| ==>
      a[i].id == b[i].id && a[i].definition == b[i].definition && a[i].groupId == b[i].groupId &&
      a[i].queueType == b[i].queueType && a[i].createDate == b[i].createDate
  }

  lemma SameIdentityKeepsInvariant(a: seq<Job>, b: seq<Job>, largestId: int)
    requires StoreInvariant(a, largestId) && SameIdentity(a, b)
    ensures StoreInvariant(b, largestId)
  {
  }

  /** Appending to a list keeps a match in the prefix, and otherwise finds the first match in the suffix. */
  lemma {:induction false} FirstMatchAppend(s: seq<Job>, t: seq<Job>, sel: Selector)
    ensures FirstMatch(s + t, sel) ==
      if FirstMatch(s, sel).Some? then FirstMatch(s, sel)
      else match FirstMatch(t, sel)
        case None => None
        case Some(k) => Some(|s| + k)
  {
    if |s| > 0 {
      assert (s + t)[0] == s[0];
      assert (s + t)[1..] == s[1..] + t;
      FirstMatchAppend(s[1..], t, sel);
    } else {
      assert s + t == t;
    }
  }

  /** Under the invariant, the job with a given id is unique: FirstMatch by id finds exactly it. */
  lemma FirstMatchByIdUnique(jobs: seq<Job>, k: nat)
    requires IdsIncreasing(jobs) && k < |jobs|
    ensures FirstMatch(jobs, HasId(jobs[k].id)) == Some(k)
  {
    FirstMatchIsFirst(jobs, HasId(jobs[k].id));
  }

  /** Filter keeps store order, so it keeps ids increasing. */
  lemma {:induction false} FilterKeepsOrder(jobs: seq<Job>, sel: Selector)
    requires IdsIncreasing(jobs)
    ensures IdsIncreasing(Filter(jobs, sel))
  {
    if |jobs| > 0 {
      var tail := jobs[1..];
      assert IdsIncreasing(tail) by {
        forall i, k | 0 <= i < k < |tail| ensures tail[i].id < tail[k].id {
          assert tail[i] == jobs[i + 1] && tail[k] == jobs[k + 1];
        }
      }
      FilterKeepsOrder(tail, sel);
      if Selects(sel, jobs[0]) {
        var r := [jobs[0]] + Filter(tail, sel);
        forall i, k | 0 <= i < k < |r| ensures r[i].id < r[k].id {
          if i == 0 {
            assert r[k] in tail;
            var m :| 0 <= m < |tail| && tail[m] == r[k];
            assert tail[m] == jobs[m + 1];
          } else {
            assert r[i] == Filter(tail, sel)[i - 1] && r[k] == Filter(tail, sel)[k - 1];
          }
        }
      }
    }
  }
}
