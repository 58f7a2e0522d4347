# Job queue client and Cosmos DB error classification

This project models two parts of a FHIR server's background-job machinery and proves properties of them.

**The in-memory job queue (`TestQueueClient`).** It is the reference implementation of the job-queue contract. It keeps one list of job records and a `largestId` counter, and implements the job state machine on them:

- enqueue with deduplication by definition and one group id per call;
- dequeue, which claims a Created job or a Running job whose lease has expired;
- batch dequeue;
- heartbeat, which renews the lease, stores progress and reports the cancel flag;
- completion, with an optional cancel cascade over the group on failure;
- cancel by id or by group;
- lookups by id, by a set of ids and by group.

The model is the class `TestQueue.TestQueueClient`:

- fields `jobs: seq<Job>` and `largestId`;
- one method per operation, with `modifies this` and a loop wherever the code loops;
- the lookups as functions that read `this`.

Each method is proved equal to a specification function of the old state in module `QueueSpec`: `Cancel`, `CompleteSpec`, `DequeueSpec`, `DequeueMany`, `EnqueueSpec` and `HeartbeatSpec`. What the queue promises is proved as lemmas about those functions. These cover:

- status transitions;
- "nothing else changes";
- id freshness and the store invariant (increasing unique ids below the counter, distinct definitions);
- the batch bound;
- the lease rule;
- idempotent cancel;
- enqueue deduplication and re-enqueue.

Times are integers in .NET ticks. A single dequeue, heartbeat, completion or enqueue receives the clock as one `now` parameter. A batch dequeue receives the whole clock as a function `clock: nat -> int`, and its n-th dequeue runs at `clock(n)`, because each call of `DequeueAsync` reads `DateTime.Now` anew. A lease has expired when `now - heartbeat > heartbeatTimeoutSec * 10_000_000`.

**Error classification (`CosmosResponseProcessor`).** This is the ordered decision table that turns a Cosmos DB error response into the exception the server raises. Its inputs are the status code, the optional sub-status, the `x-ms-retry-after-ms` header and the error message. It is modelled as the pure function `ClassifyError`, which returns `Option<ErrorKind>` (None means nothing is raised). `ProcessErrorResponse` is the response overload and raises nothing for a success code. `GetCustomerManagedKeyErrorMessage` maps a sub-status to a resource message. The retry-after header goes through a model of .NET's `int.TryParse` (module `DotNetInt32`), which is proved to round-trip with decimal formatting.

Where the code and the queue contract it implements differ, the model follows the code:

- The counter advances once for a minted group id and once per created job. A definition that is already stored advances nothing, because the `continue` at line 140 skips the increment at line 163.
- Deduplication looks at every stored job, whatever its queue type.
- The lease test is strict (`>`), so a job becomes reclaimable only after strictly more than the timeout has passed.
- Heartbeat does not check the job's status. It also updates a terminal job. For an unknown id it returns false instead of failing.
- A claim does not clear the cancel flag. A cancel requested before a lease expired is therefore still reported after the job is reclaimed.
- Dequeue ignores `jobId` and `checkTimeoutJobsOnly`, and Enqueue ignores `forceOneActiveJobGroup`.
- Cancel, complete and the lookups ignore the queue type they are given.
- A batch can claim the same job twice. This can happen when the clock moves by more than one lease between two of its dequeues and no job earlier in the list has become claimable in the meantime; with a negative timeout and a non-decreasing clock it happens at the next dequeue (`ExpiredLeaseIsReclaimedInBatch`). `DequeueManyDistinct` therefore requires every clock reading of the batch to lie within one lease of the first one (`WithinOneLease`), which also rules out a negative timeout.
- A moving clock can also invert a batch's order. A Running job whose lease expires between two dequeues is claimed after a later Created job (`MovingClockCanInvertOrder`). `DequeueManyIncreasing` therefore holds only while the clock stands still during the batch (`ClockFrozen`).

The definition of the enumeration `KnownCosmosDbCmkSubStatusValue` is not part of this model. It is taken to have exactly nine members, with the values 4000–4006, 4008 and 4009. `CmkFromValue` decodes exactly these nine values. If the enumeration had a further member, `Enum.IsDefined` would accept its value and `GetCustomerManagedKeyErrorMessage` would give it the default message, so `CmkErrorCarriesMessage` and the "default exactly outside the enumeration" property would fail for it. The proved properties otherwise depend only on the members being distinct and none of them being 429. The `Resources` strings become the constructors of `Resource`.

## Model

| member | source | states |
|---|---|---|
| TestQueue.TestQueueClient.constructor | src/Microsoft.Health.TaskManagement.UnitTests/TestQueueClient.cs:17-18 | An empty list and a counter of 1 satisfy the store invariant. |
| TestQueue.TestQueueClient.CancelWhere | src/Microsoft.Health.TaskManagement.UnitTests/TestQueueClient.cs:39-50 | The cancel loop leaves the list equal to `Cancel` of the old list under the selector and keeps the store invariant and the counter. |
| TestQueue.TestQueueClient.CancelJobByGroupId | src/Microsoft.Health.TaskManagement.UnitTests/TestQueueClient.cs:37-53 | The new list is `Cancel(old, InGroup(groupId))`; the queue type plays no part. |
| TestQueue.TestQueueClient.CancelJobById | src/Microsoft.Health.TaskManagement.UnitTests/TestQueueClient.cs:55-71 | The new list is `Cancel(old, HasId(jobId))`; the queue type plays no part. |
| TestQueue.TestQueueClient.CompleteJob | src/Microsoft.Health.TaskManagement.UnitTests/TestQueueClient.cs:73-85 | `found` holds exactly when a stored job has the caller's id; then the list is `CompleteSpec` of the old one, otherwise unchanged. |
| TestQueue.TestQueueClient.DequeueJobs | src/Microsoft.Health.TaskManagement.UnitTests/TestQueueClient.cs:87-107 | The loop returns `DequeueMany` of the old list, its n-th dequeue reading the clock at `clock(n)`. It holds at most the requested number of jobs (none for a negative count), and fewer only when no job is claimable at the reading that ended the loop. The store invariant and the counter are kept. |
| TestQueue.TestQueueClient.Dequeue | src/Microsoft.Health.TaskManagement.UnitTests/TestQueueClient.cs:109-127 | The new list and the result are `DequeueSpec` of the old list. The result is None exactly when no job is claimable; otherwise it is a Running job of the queue type with heartbeat `now`. |
| TestQueue.TestQueueClient.EnqueueOne | src/Microsoft.Health.TaskManagement.UnitTests/TestQueueClient.cs:137-163 | One pass of the enqueue loop is `EnqueueStep` of the old list, counter and results. |
| TestQueue.TestQueueClient.Enqueue | src/Microsoft.Health.TaskManagement.UnitTests/TestQueueClient.cs:129-167 | The call is `EnqueueSpec` of the old state and keeps the store invariant. It returns one job per definition, in order, with that definition. It only appends. New jobs are Created, in the call's queue type and group, with ids at least the old counter. |
| TestQueue.TestQueueClient.GetJobByGroupId | src/Microsoft.Health.TaskManagement.UnitTests/TestQueueClient.cs:176 | Exactly the stored jobs of the group are returned. |
| TestQueue.TestQueueClient.GetJobById | src/Microsoft.Health.TaskManagement.UnitTests/TestQueueClient.cs:187 | A stored job with that id is returned; None exactly when no stored job has it. |
| TestQueue.TestQueueClient.GetJobsByIds | src/Microsoft.Health.TaskManagement.UnitTests/TestQueueClient.cs:198 | Exactly the stored jobs whose id is among the requested ids are returned. |
| TestQueue.TestQueueClient.PutJobHeartbeat | src/Microsoft.Health.TaskManagement.UnitTests/TestQueueClient.cs:207-231 | The new list and the returned flag are `HeartbeatSpec` of the old list; for an unknown id the flag is false and nothing changes. |
| JobModel.FirstMatch | src/Microsoft.Health.TaskManagement.UnitTests/TestQueueClient.cs:187 | `FirstOrDefault` yields an index inside the list. |
| JobModel.FirstMatchIsFirst | src/Microsoft.Health.TaskManagement.UnitTests/TestQueueClient.cs:115-118 | The found index holds the first selected job; nothing is found exactly when no job is selected. |
| JobModel.Filter | src/Microsoft.Health.TaskManagement.UnitTests/TestQueueClient.cs:176 | `Where` keeps exactly the selected jobs and never more than the list holds. |
| JobModel.FilterKeepsOrder | src/Microsoft.Health.TaskManagement.UnitTests/TestQueueClient.cs:198 | Filtering keeps store order, so ids stay increasing. |
| JobModel.SameIdentityKeepsInvariant | src/Microsoft.Health.TaskManagement.UnitTests/TestQueueClient.cs:43-48 | An update that touches only the mutable fields (status, flag, heartbeat, result) keeps the store invariant; these are the in-place writes of the cancel loop here and of lines 77-78, 121-122 and 220-221. |
| JobModel.FirstMatchAppend | src/Microsoft.Health.TaskManagement.UnitTests/TestQueueClient.cs:137-139 | After appending, the first match is the old one if there was one, otherwise the first match in the appended part. |
| JobModel.FirstMatchByIdUnique | src/Microsoft.Health.TaskManagement.UnitTests/TestQueueClient.cs:214 | Under increasing ids, the lookup by a stored job's id finds exactly that job. |
| QueueSpec.CancelJob | src/Microsoft.Health.TaskManagement.UnitTests/TestQueueClient.cs:41-49 | Cancelling one job never changes a terminal job and never yields Created. The status is kept or becomes Cancelled, the flag is set exactly when it was set or the job is Running, and nothing else changes. |
| QueueSpec.Cancel | src/Microsoft.Health.TaskManagement.UnitTests/TestQueueClient.cs:39-50 | The cancel loop keeps the list length. |
| QueueSpec.CancelAt | src/Microsoft.Health.TaskManagement.UnitTests/TestQueueClient.cs:57-68 | Each position is cancelled if selected and kept otherwise. |
| QueueSpec.CancelEffect | src/Microsoft.Health.TaskManagement.UnitTests/TestQueueClient.cs:41-49 | A selected Created job becomes Cancelled without the flag. A selected Running job gets the flag without a status change. Terminal and unselected jobs are untouched, and identities are kept. |
| QueueSpec.CancelIdempotent | src/Microsoft.Health.TaskManagement.UnitTests/TestQueueClient.cs:57-68 | Cancelling twice equals cancelling once, for any selector and so by id and by group. |
| QueueSpec.CancelIsMonotone | src/Microsoft.Health.TaskManagement.UnitTests/TestQueueClient.cs:41-49 | A cancel never clears a flag, never changes a terminal status and never creates a Created job. |
| QueueSpec.DequeueSpec | src/Microsoft.Health.TaskManagement.UnitTests/TestQueueClient.cs:115-123 | A dequeue keeps the list length, and any claimed index lies inside the list. |
| QueueSpec.DequeueEffect | src/Microsoft.Health.TaskManagement.UnitTests/TestQueueClient.cs:115-123 | Nothing is claimed exactly when no job is claimable. Otherwise the first claimable job becomes Running with heartbeat `now`, keeping its flag and result, and every other job is unchanged. |
| QueueSpec.DequeueClaimsOne | src/Microsoft.Health.TaskManagement.UnitTests/TestQueueClient.cs:121-122 | The claimed job is Running, of the requested queue type, with the dequeue's clock reading as heartbeat. |
| QueueSpec.LeaseRule | src/Microsoft.Health.TaskManagement.UnitTests/TestQueueClient.cs:118 | A job claimed at time c is claimable again at `now` exactly when `now - c` exceeds the timeout in ticks. |
| QueueSpec.ClaimIsExclusive | src/Microsoft.Health.TaskManagement.UnitTests/TestQueueClient.cs:113-124 | With a non-negative timeout and one claimable job, a dequeue claims it and a second dequeue at the same instant finds nothing. |
| QueueSpec.DequeueMany | src/Microsoft.Health.TaskManagement.UnitTests/TestQueueClient.cs:89-106 | A batch keeps the list length and holds at most max(count, 0) jobs. |
| QueueSpec.ExpiredLeaseIsReclaimedInBatch | src/Microsoft.Health.TaskManagement.UnitTests/TestQueueClient.cs:91-122 | When the clock moves by more than one lease between two dequeues of a batch (for a non-decreasing clock, always so with a negative timeout), a batch of two over a list holding only one Created job claims that job twice. |
| QueueSpec.MovingClockCanInvertOrder | src/Microsoft.Health.TaskManagement.UnitTests/TestQueueClient.cs:91-118 | With a clock that moves by one tick between two dequeues, a Running job whose lease expires in between is claimed after a later Created job: the batch holds ids 2, 1. |
| QueueSpec.DequeueManyBound | src/Microsoft.Health.TaskManagement.UnitTests/TestQueueClient.cs:91-104 | A batch holds at most max(count, 0) jobs, and holds fewer than count only when no job is claimable in the remaining list at the clock reading of the dequeue that ended it. |
| QueueSpec.DequeueManyClaims | src/Microsoft.Health.TaskManagement.UnitTests/TestQueueClient.cs:93-122 | The a-th job of a batch is Running, of the requested queue type, with the clock reading of the a-th dequeue as heartbeat. |
| QueueSpec.DequeueManyKeepsIdentity | src/Microsoft.Health.TaskManagement.UnitTests/TestQueueClient.cs:91-104 | A batch keeps the list length and each stored job's id, group, queue type, definition and creation time. |
| QueueSpec.ClaimExtendsUnclaimablePrefix | src/Microsoft.Health.TaskManagement.UnitTests/TestQueueClient.cs:115-122 | With a non-negative timeout, a claim makes the claimed job and everything before it unclaimable. |
| QueueSpec.DequeueManyLowerBound | src/Microsoft.Health.TaskManagement.UnitTests/TestQueueClient.cs:115-118 | While the clock stands still, with a non-negative timeout and an unclaimable prefix, a batch claims nothing when the prefix covers the whole list, and otherwise no job with a smaller id than the first job after the prefix. |
| QueueSpec.DequeueManyIncreasing | src/Microsoft.Health.TaskManagement.UnitTests/TestQueueClient.cs:91-104 | While the clock stands still during the batch, with a non-negative timeout, a batch claims jobs in increasing id order. |
| QueueSpec.DequeueManyDistinct | src/Microsoft.Health.TaskManagement.UnitTests/TestQueueClient.cs:91-104 | When every clock reading of the batch lies within one lease of the first, a batch never claims the same job twice. |
| QueueSpec.DequeueManyFresh | src/Microsoft.Health.TaskManagement.UnitTests/TestQueueClient.cs:115-122 | While the readings stay within one lease of `t0`, a job Running with a heartbeat at or after `t0` is never claimed, and nor is any job twice. |
| QueueSpec.EnqueueStepEffect | src/Microsoft.Health.TaskManagement.UnitTests/TestQueueClient.cs:137-163 | A stored definition returns the stored job and changes nothing. Otherwise one new Created job with the counter as id is appended, and the counter moves on. |
| QueueSpec.EnqueueStepKeepsInvariant | src/Microsoft.Health.TaskManagement.UnitTests/TestQueueClient.cs:144-163 | One pass of the loop keeps the store invariant. |
| QueueSpec.EnqueueStep | src/Microsoft.Health.TaskManagement.UnitTests/TestQueueClient.cs:137-163 | One pass adds one result that holds its definition, appends at most one job, and moves the counter by exactly the number of jobs appended. |
| QueueSpec.EnqueueAll | src/Microsoft.Health.TaskManagement.UnitTests/TestQueueClient.cs:135-164 | The loop adds one result per definition, appends at most one job per definition, and moves the counter by exactly the number of jobs appended. |
| QueueSpec.EnqueueSpec | src/Microsoft.Health.TaskManagement.UnitTests/TestQueueClient.cs:133-164 | An enqueue returns one result per definition and appends at most one job per definition. |
| QueueSpec.EnqueueAllAppends | src/Microsoft.Health.TaskManagement.UnitTests/TestQueueClient.cs:135-164 | The loop only appends, and the k-th created job takes the k-th counter value. |
| QueueSpec.EnqueueAllKeepsInvariant | src/Microsoft.Health.TaskManagement.UnitTests/TestQueueClient.cs:135-164 | The loop keeps the store invariant. |
| QueueSpec.EnqueueAllResultCount | src/Microsoft.Health.TaskManagement.UnitTests/TestQueueClient.cs:131-166 | The loop adds exactly one result per definition. |
| QueueSpec.EnqueueAllResults | src/Microsoft.Health.TaskManagement.UnitTests/TestQueueClient.cs:137-159 | The i-th result is the stored job that holds the i-th definition. |
| QueueSpec.EnqueueAllKeepsJobs | src/Microsoft.Health.TaskManagement.UnitTests/TestQueueClient.cs:137-141 | When every definition is already stored, the loop creates nothing and leaves the counter alone. |
| QueueSpec.EnqueueCreates | src/Microsoft.Health.TaskManagement.UnitTests/TestQueueClient.cs:133-163 | An enqueue keeps the invariant and the old jobs. The counter grows by one for a minted group and one per created job. Each new job is Created, in the queue type, in group `groupId ?? largestId`, created and heartbeated `now`, unflagged, without a result, with an id above every earlier one. |
| QueueSpec.EnqueueResults | src/Microsoft.Health.TaskManagement.UnitTests/TestQueueClient.cs:135-166 | An enqueue returns one job per definition, in input order, each holding its definition and stored. |
| QueueSpec.EnqueueDeduplicates | src/Microsoft.Health.TaskManagement.UnitTests/TestQueueClient.cs:137-141 | A definition already stored, in any queue type, returns that stored job unchanged. |
| QueueSpec.EnqueueAgain | src/Microsoft.Health.TaskManagement.UnitTests/TestQueueClient.cs:137-141 | Enqueueing the same definitions again, in any queue type and group, creates nothing and returns the same jobs. |
| QueueSpec.HeartbeatSpec | src/Microsoft.Health.TaskManagement.UnitTests/TestQueueClient.cs:214-223 | A heartbeat keeps the list length. |
| QueueSpec.HeartbeatEffect | src/Microsoft.Health.TaskManagement.UnitTests/TestQueueClient.cs:207-231 | On the job with the id, a heartbeat sets heartbeat and result and returns the flag, whatever its status. It never changes a status or a flag. For an unknown id it returns false and changes nothing. |
| QueueSpec.CancelIsObservedByHeartbeat | src/Microsoft.Health.TaskManagement.UnitTests/TestQueueClient.cs:223 | A cancel that reaches a Running job is reported by its next heartbeat. |
| QueueSpec.HeartbeatRenewsLease | src/Microsoft.Health.TaskManagement.UnitTests/TestQueueClient.cs:220 | After a heartbeat a Running job is not claimable at that instant for any non-negative timeout. |
| QueueSpec.CompleteSpec | src/Microsoft.Health.TaskManagement.UnitTests/TestQueueClient.cs:77-84 | A completion that finds its job keeps the list length. |
| QueueSpec.CompleteFindsJob | src/Microsoft.Health.TaskManagement.UnitTests/TestQueueClient.cs:77 | Completion fails exactly when no stored job has the caller's id. |
| QueueSpec.CompleteEffect | src/Microsoft.Health.TaskManagement.UnitTests/TestQueueClient.cs:77-84 | Completion writes the status and result. Only a failure with `requestCancellationOnFailure` cancels the other jobs of the caller's group (Created to Cancelled, Running flagged, terminal untouched); other groups are untouched. |
| DotNetInt32.ParseInt32 | src/Microsoft.Health.Fhir.CosmosDb/Features/Storage/CosmosResponseProcessor.cs:74 | A parsed header value is a 32-bit integer; a missing header does not parse. |
| DotNetInt32.NatDigitsValue | src/Microsoft.Health.Fhir.CosmosDb/Features/Storage/CosmosResponseProcessor.cs:74 | The decimal digits of n have value n. |
| DotNetInt32.FormatRoundTrip | src/Microsoft.Health.Fhir.CosmosDb/Features/Storage/CosmosResponseProcessor.cs:74 | A rendered integer parses back to itself exactly when it fits in 32 bits, and to nothing otherwise. |
| CosmosResponseProcessor.CmkValueRoundTrip | src/Microsoft.Health.Fhir.CosmosDb/Features/Storage/CosmosResponseProcessor.cs:97 | The decoder of sub-status values and the enumeration's values are inverse. |
| CosmosResponseProcessor.CmkFromValue | src/Microsoft.Health.Fhir.CosmosDb/Features/Storage/CosmosResponseProcessor.cs:97 | A sub-status is a defined member exactly when it is one of 4000–4006, 4008 and 4009, and then it decodes to the member with that value. |
| CosmosResponseProcessor.GetCustomerManagedKeyErrorMessage | src/Microsoft.Health.Fhir.CosmosDb/Features/Storage/CosmosResponseProcessor.cs:217-253 | The mapping is total. It yields the default message exactly for values outside the enumeration, and never the continuation-token message. |
| CosmosResponseProcessor.CmkMessagesDistinct | src/Microsoft.Health.Fhir.CosmosDb/Features/Storage/CosmosResponseProcessor.cs:221-250 | Distinct defined sub-statuses map to distinct messages. |
| CosmosResponseProcessor.ContainsIgnoreCaseFolds | src/Microsoft.Health.Fhir.CosmosDb/Features/Storage/CosmosResponseProcessor.cs:82 | Ordinal case-insensitive containment finds a literal occurrence and ignores the case of the searched string. |
| CosmosResponseProcessor.ContainsIgnoreCase | src/Microsoft.Health.Fhir.CosmosDb/Features/Storage/CosmosResponseProcessor.cs:82-87 | The empty needle is contained in every string, and a contained needle is never longer than the string. |
| CosmosResponseProcessor.ClassifyError | src/Microsoft.Health.Fhir.CosmosDb/Features/Storage/CosmosResponseProcessor.cs:66-107 | Throttling always gives RequestRateExceeded with the parsed retry-after. Nothing is raised only for a non-throttled code other than 408 and 413. A RequestNotValid error carries the continuation-token message, and a customer-managed-key error needs 403 and never carries the default message. |
| CosmosResponseProcessor.ThrottlingTakesPrecedence | src/Microsoft.Health.Fhir.CosmosDb/Features/Storage/CosmosResponseProcessor.cs:71-75 | Status or sub-status 429 always gives RequestRateExceeded, whatever else holds. Its retry-after is present exactly when the header parses. |
| CosmosResponseProcessor.RetryAfterIsParsed | src/Microsoft.Health.Fhir.CosmosDb/Features/Storage/CosmosResponseProcessor.cs:73-74 | A header that is a rendered 32-bit integer is carried through as that many milliseconds. |
| CosmosResponseProcessor.ClassificationIsExact | src/Microsoft.Health.Fhir.CosmosDb/Features/Storage/CosmosResponseProcessor.cs:66-101 | Each error kind is raised exactly when its condition holds and no earlier one does, both directions. Nothing is raised exactly when no condition holds. |
| CosmosResponseProcessor.CmkErrorCarriesMessage | src/Microsoft.Health.Fhir.CosmosDb/Features/Storage/CosmosResponseProcessor.cs:94-100 | A customer-managed-key error needs status 403 and a sub-status, and carries that sub-status's own, non-default message. |
| CosmosResponseProcessor.ForbiddenWithoutCmkIsSilent | src/Microsoft.Health.Fhir.CosmosDb/Features/Storage/CosmosResponseProcessor.cs:94-107 | A 403 without a defined sub-status, and with no earlier condition, raises nothing. |
| CosmosResponseProcessor.ProcessErrorResponse | src/Microsoft.Health.Fhir.CosmosDb/Features/Storage/CosmosResponseProcessor.cs:58-64 | A success code raises nothing; any other code is classified by the status-code overload. |
| CosmosResponseProcessor.SuccessGuardMatters | src/Microsoft.Health.Fhir.CosmosDb/Features/Storage/CosmosResponseProcessor.cs:58-71 | The success guard matters: a 200 with sub-status 429 is throttling for the status-code overload, but nothing for the response overload. |

## Left out

- The fault-injection hooks (`DequeueFaultAction`, `HeartbeatFaultAction`, `CompleteFaultAction`) and the `GetJob*Func` overrides: test scaffolding, not queue behaviour.
- `lock`, `Task`, async and `CancellationToken`: each operation is one atomic step.
- `DateTime.Now` within one call: `DequeueAsync` reads it once per Running job of the queue type that it examines and once more for the new heartbeat, and `EnqueueAsync` reads it twice per created job. The model gives a dequeue one reading (`clock(n)` within a batch) and an enqueue one `now`, so a claim's heartbeat equals the instant at which the lease test ran and all jobs of one enqueue share one creation time.
- QueueSpec.DequeueManyIncreasing: proved only while the clock stands still during the batch (`ClockFrozen`); under a moving clock the order can invert, as `MovingClockCanInvertOrder` shows.
- QueueSpec.DequeueManyLowerBound: proved only while the clock stands still during the batch (`ClockFrozen`), for the same reason.
- QueueSpec.DequeueManyDistinct: proved only while every clock reading of the batch lies within one lease of the first (`WithinOneLease`); otherwise a batch can claim a job twice, as `ExpiredLeaseIsReclaimedInBatch` shows.
- Aliasing, in either direction: `JobInfo` is a reference type, so a returned job and the stored one are the same object. The model returns values. A later change to a stored job therefore does not show in a job returned earlier. A change a caller makes to a returned job does not reach the store either, although in the code it does. `CompleteJobAsync` and `PutJobHeartbeatAsync` usually receive that very object from the caller (lines 77-79 and 214-221), and they look it up again by id. A batch with a negative timeout holds one object twice, and the model holds two values.
- Direct mutation of the list through the public `JobInfos` property is not modelled; the store invariant assumes only the client's own operations change it.
- `largestId` is a 64-bit `long`; its overflow is not modelled.
- `IsInitialized` returns a constant and has no state to model.
- The `NullReferenceException` of `CompleteJobAsync` for an unknown id is modelled as `found == false` with no change, not as an exception.
- TestQueue.TestQueueClient.GetJobByGroupId: states which jobs are in the returned list, not its multiplicity; store order is stated separately by `JobModel.FilterKeepsOrder`.
- TestQueue.TestQueueClient.GetJobsByIds: states which jobs are in the returned list, not its multiplicity; store order is stated separately by `JobModel.FilterKeepsOrder`.
- A null error message or null stored definition, which would throw in the code, is not modelled: strings are never null here.
- CosmosResponseProcessor.ContainsIgnoreCaseFolds: case folding covers ASCII letters only, not the full Unicode simple case mapping that ordinal-ignore-case comparison uses.
- DotNetInt32.ParseInt32: culture-specific signs and the trailing NUL characters that .NET accepts are not modelled.
- `Headers.GetSubStatusValue` (parsing the sub-status header) is not part of this model: the sub-status is an input.
- The logging, `EmitExceptionNotificationAsync`, `ProcessResponseAsync` and `AddRequestChargeToFhirRequestContextAsync`: mediator publishing, response headers, a `ConcurrentBag` and floating-point request charges.
- Throwing exceptions: the raised exception is the returned `ErrorKind`.
- `IFhirClient`, `IFhirMemoryCache` and the `QueueType` enumeration: interfaces and an enumeration with no behaviour. Queue types are bytes.
