/** The request daemon: one reconciliation pass of the request table against
    the ganga tasks, the task lookup it uses, and the clean-up wrapper for a
    newly created ganga request.

    The request table keeps, per request id, the status column; the other
    columns play no part in the pass. The ganga task list is given as a
    sequence of (request id, status) pairs, the status spelled as ganga
    spells it (lower case). */
module GangaDaemon {
  import opened Common
  import opened Text

  datatype Task = Task(requestdbId: int, status: string)

  // ---------------------------------------------------------------------
  // getGangaRequest

  /** The first task, in list order, that serves request `id`; `None`
      exactly when no task does. */
  function FindTask(tasks: seq<Task>, id: int): (r: Option<Task>)
    ensures r.None? <==> forall i :: 0 <= i < |tasks| ==> tasks[i].requestdbId != id
    ensures r.Some? ==> exists i :: 0 <= i < |tasks| && tasks[i] == r.value
                                    && r.value.requestdbId == id
                                    && forall j :: 0 <= j < i ==> tasks[j].requestdbId != id
  {
    if tasks == [] then None
    else if tasks[0].requestdbId == id then Some(tasks[0])
    else
      var r := FindTask(tasks[1..], id);
      assert forall i :: 0 < i < |tasks| ==> tasks[i] == tasks[1..][i - 1];
      r
  }

  /** `getGangaRequest(requestdb_id)`: a linear search with early return. */
  method GetGangaRequest(tasks: seq<Task>, id: int) returns (r: Option<Task>)
    ensures r == FindTask(tasks, id)
  {
    var i := 0;
    while i < |tasks|
      invariant 0 <= i <= |tasks|
      invariant forall j :: 0 <= j < i ==> tasks[j].requestdbId != id
    {
      if tasks[i].requestdbId == id {
        return Some(tasks[i]);
      }
      i := i + 1;
    }
    return None;
  }

  // ---------------------------------------------------------------------
  // The decision rules of monitor_requests

  /** A request is polled unless it is new or completed. */
  predicate IsMonitored(status: string): (r: bool)
    ensures status == "Approved" || status == "Paused" || status == "Running" ==> r
    ensures status == "Completed" || status == "New" ==> !r
  {
    status != "Completed" && status != "New"
  }

  /** The requests of `ids`, in order, whose status is `wanted`. */
  function WithStatus(ids: seq<int>, status: map<int, string>, wanted: string): (r: seq<int>)
    requires forall i :: 0 <= i < |ids| ==> ids[i] in status
    ensures forall id :: id in r <==> id in ids && status[id] == wanted
    ensures NoDup(ids) ==> NoDup(r)
  {
    if ids == [] then []
    else
      var rest := WithStatus(ids[1..], status, wanted);
      assert forall id :: id in ids[1..] ==> id in ids;
      assert NoDup(ids) ==> NoDup(ids[1..]) && ids[0] !in ids[1..] by {
        if NoDup(ids) { NoDupTail(ids); }
      }
      if status[ids[0]] == wanted then
        assert NoDup(ids) ==> NoDup([ids[0]] + rest) by {
          if NoDup(ids) { NoDupCons(ids[0], rest); }
        }
        [ids[0]] + rest
      else rest
  }

  /** The query of monitor_requests: every request that is neither new nor
      completed, in the order the table returns them. */
  function Monitored(ids: seq<int>, status: map<int, string>): (r: seq<int>)
    requires forall i :: 0 <= i < |ids| ==> ids[i] in status
    ensures forall id :: id in r <==> id in ids && IsMonitored(status[id])
    ensures NoDup(ids) ==> NoDup(r)
  {
    if ids == [] then []
    else
      var rest := Monitored(ids[1..], status);
      assert forall id :: id in ids[1..] ==> id in ids;
      assert NoDup(ids) ==> NoDup(ids[1..]) && ids[0] !in ids[1..] by {
        if NoDup(ids) { NoDupTail(ids); }
      }
      if IsMonitored(status[ids[0]]) then
        assert NoDup(ids) ==> NoDup([ids[0]] + rest) by {
          if NoDup(ids) { NoDupCons(ids[0], rest); }
        }
        [ids[0]] + rest
      else rest
  }

  /** The three buckets a pass works through, in this order. */
  datatype Bucket = ApprovedBucket | PausedBucket | RunningBucket

  function BucketStatus(b: Bucket): string
  {
    match b
    case ApprovedBucket => "Approved"
    case PausedBucket => "Paused"
    case RunningBucket => "Running"
  }

  /** The requests of one bucket: the monitored requests with its status. */
  function BucketOf(b: Bucket, ids: seq<int>, status: map<int, string>): (r: seq<int>)
    requires forall i :: 0 <= i < |ids| ==> ids[i] in status
    ensures forall id :: id in r <==> id in ids && IsMonitored(status[id]) && status[id] == BucketStatus(b)
    ensures forall i :: 0 <= i < |r| ==> r[i] in status && status[r[i]] == BucketStatus(b)
    ensures NoDup(ids) ==> NoDup(r)
  {
    var m := Monitored(ids, status);
    assert forall i :: 0 <= i < |m| ==> m[i] in status by {
      forall i | 0 <= i < |m| ensures m[i] in status {
        assert m[i] in m;
      }
    }
    var r := WithStatus(m, status, BucketStatus(b));
    assert forall i :: 0 <= i < |r| ==> r[i] in status && status[r[i]] == BucketStatus(b) by {
      forall i | 0 <= i < |r| ensures r[i] in status && status[r[i]] == BucketStatus(b) {
        assert r[i] in r;
      }
    }
    r
  }

  /** The buckets are disjoint parts of the monitored requests. */
  lemma BucketsPartitionMonitored(ids: seq<int>, status: map<int, string>, id: int)
    requires forall i :: 0 <= i < |ids| ==> ids[i] in status
    ensures id in BucketOf(ApprovedBucket, ids, status) ==> id in Monitored(ids, status)
    ensures id in BucketOf(PausedBucket, ids, status) ==> id in Monitored(ids, status)
    ensures id in BucketOf(RunningBucket, ids, status) ==> id in Monitored(ids, status)
    ensures !(id in BucketOf(ApprovedBucket, ids, status) && id in BucketOf(PausedBucket, ids, status))
    ensures !(id in BucketOf(ApprovedBucket, ids, status) && id in BucketOf(RunningBucket, ids, status))
    ensures !(id in BucketOf(PausedBucket, ids, status) && id in BucketOf(RunningBucket, ids, status))
  {
  }

  datatype MonitorError =
    | NoTask(id: int)                                // a running request without a task: `None.status`
    | UnexpectedTaskStatus(id: int, status: string)  // "This should not happen"

  /** What a pass does with one request of a bucket, given its task. */
  datatype Step = Keep | SetStatus(status: string) | Raise(error: MonitorError)

  function Rule(b: Bucket, id: int, task: Option<Task>): (r: Step)
    ensures r.Raise? <==> b == RunningBucket
                          && (task.None? || (task.value.status != "paused" && task.value.status != "completed"))
    ensures r.SetStatus? ==> task.Some? && r.status == Capitalize(task.value.status)
    ensures r.Keep? ==> b != RunningBucket
  {
    match b
    case ApprovedBucket =>
      // an approved request that already has a task takes the task's status
      if task.Some? then SetStatus(Capitalize(task.value.status)) else Keep
    case PausedBucket =>
      if task.Some? && task.value.status != "paused" then SetStatus(Capitalize(task.value.status)) else Keep
    case RunningBucket =>
      if task.None? then Raise(NoTask(id))
      else if task.value.status != "paused" && task.value.status != "completed" then
        Raise(UnexpectedTaskStatus(id, task.value.status))
      else SetStatus(Capitalize(task.value.status))
  }

  /** The status table and the exception, if any, a pass ends with. */
  datatype PassState = PassState(status: map<int, string>, error: Option<MonitorError>)

  /** `UPDATE requests SET status = s WHERE id = id`. */
  function SetRow(status: map<int, string>, id: int, s: string): map<int, string>
  {
    if id in status then status[id := s] else status
  }

  /** Working through the requests `ids` of bucket `b` in order, stopping at
      the first one whose rule raises. */
  function Apply(b: Bucket, ids: seq<int>, tasks: seq<Task>, status: map<int, string>): (r: PassState)
    ensures r.status.Keys == status.Keys
  {
    if ids == [] then PassState(status, None)
    else
      match Rule(b, ids[0], FindTask(tasks, ids[0]))
      case Keep => Apply(b, ids[1..], tasks, status)
      case SetStatus(s) => Apply(b, ids[1..], tasks, SetRow(status, ids[0], s))
      case Raise(e) => PassState(status, Some(e))
  }

  /** The position in `ids` of the first request whose rule raises, or
      `|ids|` when none does. */
  function FirstRaise(b: Bucket, ids: seq<int>, tasks: seq<Task>): (k: nat)
    ensures k <= |ids|
    ensures forall i :: 0 <= i < k ==> !Rule(b, ids[i], FindTask(tasks, ids[i])).Raise?
    ensures k < |ids| ==> Rule(b, ids[k], FindTask(tasks, ids[k])).Raise?
  {
    if ids == [] then 0
    else if Rule(b, ids[0], FindTask(tasks, ids[0])).Raise? then 0
    else 1 + FirstRaise(b, ids[1..], tasks)
  }

  /** The status a request of `ids` ends with: its rule's status when the
      rule sets one and the request comes before the first that raises;
      otherwise the status it had. */
  function Expected(b: Bucket, ids: seq<int>, tasks: seq<Task>, status: map<int, string>, k: nat): string
    requires k < |ids| && ids[k] in status
  {
    var step := Rule(b, ids[k], FindTask(tasks, ids[k]));
    if k < FirstRaise(b, ids, tasks) && step.SetStatus? then step.status else status[ids[k]]
  }

  /** Working through a bucket raises exactly when some request's rule
      does, with the error of the first such request. */
  lemma {:induction false} ApplyRaises(b: Bucket, ids: seq<int>, tasks: seq<Task>, status: map<int, string>)
    ensures var r := Apply(b, ids, tasks, status);
      && (r.error.Some? <==> FirstRaise(b, ids, tasks) < |ids|)
      && (r.error.Some? ==> r.error.value == Rule(b, ids[FirstRaise(b, ids, tasks)], FindTask(tasks, ids[FirstRaise(b, ids, tasks)])).error)
    decreases |ids|
  {
    if ids != [] {
      var step := Rule(b, ids[0], FindTask(tasks, ids[0]));
      if !step.Raise? {
        var next := if step.SetStatus? then SetRow(status, ids[0], step.status) else status;
        ApplyRaises(b, ids[1..], tasks, next);
        assert Apply(b, ids, tasks, status) == Apply(b, ids[1..], tasks, next);
        assert FirstRaise(b, ids, tasks) == 1 + FirstRaise(b, ids[1..], tasks);
      }
    }
  }

  /** Working through a bucket leaves every request outside it alone. */
  lemma {:induction false} ApplyUntouched(b: Bucket, ids: seq<int>, tasks: seq<Task>, status: map<int, string>, id: int)
    requires id in status && id !in ids
    ensures Apply(b, ids, tasks, status).status[id] == status[id]
    decreases |ids|
  {
    if ids != [] {
      var step := Rule(b, ids[0], FindTask(tasks, ids[0]));
      if !step.Raise? {
        var next := if step.SetStatus? then SetRow(status, ids[0], step.status) else status;
        assert id !in ids[1..];
        ApplyUntouched(b, ids[1..], tasks, next, id);
      }
    }
  }

  /** Working through a bucket changes a request before the first one
      that raises as its rule says, and leaves the others as they were. */
  lemma {:induction false} ApplyRow(b: Bucket, ids: seq<int>, tasks: seq<Task>, status: map<int, string>, k: nat)
    requires NoDup(ids) && k < |ids| && ids[k] in status
    ensures Apply(b, ids, tasks, status).status[ids[k]] == Expected(b, ids, tasks, status, k)
    decreases |ids|
  {
    var x := ids[0];
    var step := Rule(b, x, FindTask(tasks, x));
    NoDupTail(ids);
    if !step.Raise? {
      var next := if step.SetStatus? then SetRow(status, x, step.status) else status;
      assert Apply(b, ids, tasks, status) == Apply(b, ids[1..], tasks, next);
      assert FirstRaise(b, ids, tasks) == 1 + FirstRaise(b, ids[1..], tasks);
      if k > 0 {
        assert ids[1..][k - 1] == ids[k];
        assert ids[k] != x;
        ApplyRow(b, ids[1..], tasks, next, k - 1);
      } else {
        ApplyUntouched(b, ids[1..], tasks, next, x);
      }
    }
  }

  /** Working through a bucket changes the requests before the first one
      that raises as their rules say, and nothing else; the pass raises
      exactly when some request's rule does, with that request's error. */
  lemma ApplyEffect(b: Bucket, ids: seq<int>, tasks: seq<Task>, status: map<int, string>)
    requires NoDup(ids)
    ensures var r := Apply(b, ids, tasks, status);
      && r.status.Keys == status.Keys
      && (r.error.Some? <==> FirstRaise(b, ids, tasks) < |ids|)
      && (r.error.Some? ==> r.error.value == Rule(b, ids[FirstRaise(b, ids, tasks)], FindTask(tasks, ids[FirstRaise(b, ids, tasks)])).error)
      && (forall k :: 0 <= k < |ids| && ids[k] in status ==> r.status[ids[k]] == Expected(b, ids, tasks, status, k))
      && (forall id :: id in status && id !in ids ==> r.status[id] == status[id])
  {
    ApplyRaises(b, ids, tasks, status);
    forall k | 0 <= k < |ids| && ids[k] in status
      ensures Apply(b, ids, tasks, status).status[ids[k]] == Expected(b, ids, tasks, status, k)
    {
      ApplyRow(b, ids, tasks, status, k);
    }
    forall id | id in status && id !in ids ensures Apply(b, ids, tasks, status).status[id] == status[id] {
      ApplyUntouched(b, ids, tasks, status, id);
    }
  }

  /** Rules of the approved and paused buckets never raise. */
  lemma ApplyNeverRaises(b: Bucket, ids: seq<int>, tasks: seq<Task>, status: map<int, string>)
    requires b != RunningBucket
    ensures Apply(b, ids, tasks, status).error.None?
    ensures FirstRaise(b, ids, tasks) == |ids|
  {
  }

  /** One pass of monitor_requests over the table: the buckets are taken
      from the statuses the query returned, then worked through in the
      order approved, paused, running. */
  function Reconcile(ids: seq<int>, status: map<int, string>, tasks: seq<Task>): (r: PassState)
    requires forall i :: 0 <= i < |ids| ==> ids[i] in status
    ensures r.status.Keys == status.Keys
  {
    var approved := Apply(ApprovedBucket, BucketOf(ApprovedBucket, ids, status), tasks, status);
    if approved.error.Some? then approved
    else
      var paused := Apply(PausedBucket, BucketOf(PausedBucket, ids, status), tasks, approved.status);
      if paused.error.Some? then paused
      else Apply(RunningBucket, BucketOf(RunningBucket, ids, status), tasks, paused.status)
  }

  /** The table's rows are distinct and are exactly the requests with a
      status. */
  ghost predicate WellFormedTable(ids: seq<int>, status: map<int, string>)
  {
    && NoDup(ids)
    && (forall i :: 0 <= i < |ids| ==> ids[i] in status)
    && (forall id :: id in status ==> id in ids)
  }

  /** The statuses after the approved and the paused buckets. */
  function Settled(ids: seq<int>, status: map<int, string>, tasks: seq<Task>): map<int, string>
    requires forall i :: 0 <= i < |ids| ==> ids[i] in status
  {
    var s1 := Apply(ApprovedBucket, BucketOf(ApprovedBucket, ids, status), tasks, status).status;
    Apply(PausedBucket, BucketOf(PausedBucket, ids, status), tasks, s1).status
  }

  /** A pass is the running bucket worked through from the settled
      statuses, which have the same keys as the table. */
  lemma ReconcileStages(ids: seq<int>, status: map<int, string>, tasks: seq<Task>)
    requires WellFormedTable(ids, status)
    ensures Reconcile(ids, status, tasks)
         == Apply(RunningBucket, BucketOf(RunningBucket, ids, status), tasks, Settled(ids, status, tasks))
    ensures Settled(ids, status, tasks).Keys == status.Keys
  {
    var approvedIds := BucketOf(ApprovedBucket, ids, status);
    ApplyNeverRaises(ApprovedBucket, approvedIds, tasks, status);
    var s1 := Apply(ApprovedBucket, approvedIds, tasks, status).status;
    ApplyNeverRaises(PausedBucket, BucketOf(PausedBucket, ids, status), tasks, s1);
  }

  /** Settling updates an approved or paused request by its bucket's rule
      and leaves every other request, running ones included, as it was. */
  lemma SettledRow(ids: seq<int>, status: map<int, string>, tasks: seq<Task>, id: int)
    requires WellFormedTable(ids, status) && id in status
    ensures id in Settled(ids, status, tasks)
    ensures status[id] != "Approved" && status[id] != "Paused" ==>
              Settled(ids, status, tasks)[id] == status[id]
    ensures status[id] == "Approved" ==>
              var t := FindTask(tasks, id);
              Settled(ids, status, tasks)[id] == if t.Some? then Capitalize(t.value.status) else status[id]
    ensures status[id] == "Paused" ==>
              var t := FindTask(tasks, id);
              Settled(ids, status, tasks)[id]
                == if t.Some? && t.value.status != "paused" then Capitalize(t.value.status) else status[id]
  {
    var approvedIds := BucketOf(ApprovedBucket, ids, status);
    var pausedIds := BucketOf(PausedBucket, ids, status);
    ApplyEffect(ApprovedBucket, approvedIds, tasks, status);
    ApplyNeverRaises(ApprovedBucket, approvedIds, tasks, status);
    var s1 := Apply(ApprovedBucket, approvedIds, tasks, status).status;
    ApplyEffect(PausedBucket, pausedIds, tasks, s1);
    ApplyNeverRaises(PausedBucket, pausedIds, tasks, s1);
    var s2 := Apply(PausedBucket, pausedIds, tasks, s1).status;
    assert s2 == Settled(ids, status, tasks);
    if status[id] == "Approved" {
      assert id in approvedIds && id !in pausedIds;
      var k :| 0 <= k < |approvedIds| && approvedIds[k] == id;
      assert s1[id] == Expected(ApprovedBucket, approvedIds, tasks, status, k);
    } else if status[id] == "Paused" {
      assert id in pausedIds && id !in approvedIds;
      var k :| 0 <= k < |pausedIds| && pausedIds[k] == id;
      assert s2[id] == Expected(PausedBucket, pausedIds, tasks, s1, k);
    } else {
      assert id !in approvedIds && id !in pausedIds;
    }
  }

  /** What a pass does to one request that is not running: an approved
      request with a task, and a paused request whose task is not paused,
      take the task's status, capitalised; every other request that is not
      running keeps its status. */
  lemma ReconcileSettled(ids: seq<int>, status: map<int, string>, tasks: seq<Task>, id: int)
    requires WellFormedTable(ids, status) && id in status && status[id] != "Running"
    ensures var r := Reconcile(ids, status, tasks); var t := FindTask(tasks, id);
      && r.status.Keys == status.Keys
      && (status[id] == "Approved" ==>
            r.status[id] == if t.Some? then Capitalize(t.value.status) else status[id])
      && (status[id] == "Paused" ==>
            r.status[id] == if t.Some? && t.value.status != "paused" then Capitalize(t.value.status) else status[id])
      && (status[id] != "Approved" && status[id] != "Paused" ==> r.status[id] == status[id])
  {
    ReconcileStages(ids, status, tasks);
    SettledRow(ids, status, tasks, id);
    var running := BucketOf(RunningBucket, ids, status);
    var s2 := Settled(ids, status, tasks);
    ApplyEffect(RunningBucket, running, tasks, s2);
    assert id !in running;
    assert Reconcile(ids, status, tasks).status[id] == s2[id];
  }

  /** A running request before the first one whose rule raises takes its
      task's status, which is paused or completed, capitalised; that one
      and every later one keep the status they had. */
  lemma RunningRow(ids: seq<int>, status: map<int, string>, tasks: seq<Task>, i: int)
    requires WellFormedTable(ids, status)
    requires 0 <= i < |BucketOf(RunningBucket, ids, status)|
    ensures var running := BucketOf(RunningBucket, ids, status);
      var t := FindTask(tasks, running[i]);
      var r := Reconcile(ids, status, tasks);
      && running[i] in r.status
      && (i < FirstRaise(RunningBucket, running, tasks) ==>
            && t.Some? && (t.value.status == "paused" || t.value.status == "completed")
            && r.status[running[i]] == Capitalize(t.value.status))
      && (i >= FirstRaise(RunningBucket, running, tasks) ==> r.status[running[i]] == status[running[i]])
  {
    var running := BucketOf(RunningBucket, ids, status);
    var s2 := Settled(ids, status, tasks);
    ReconcileStages(ids, status, tasks);
    SettledRow(ids, status, tasks, running[i]);
    ApplyEffect(RunningBucket, running, tasks, s2);
    assert Reconcile(ids, status, tasks).status[running[i]] == Expected(RunningBucket, running, tasks, s2, i);
  }

  /** A pass raises exactly when some running request's rule does, and
      then at the first such request, with that rule's error. */
  lemma RunningRaises(ids: seq<int>, status: map<int, string>, tasks: seq<Task>)
    requires WellFormedTable(ids, status)
    ensures var running := BucketOf(RunningBucket, ids, status);
      var k := FirstRaise(RunningBucket, running, tasks);
      var r := Reconcile(ids, status, tasks);
      && (r.error.Some? <==> k < |running|)
      && (r.error.Some? ==> Rule(RunningBucket, running[k], FindTask(tasks, running[k])) == Raise(r.error.value))
  {
    ReconcileStages(ids, status, tasks);
    ApplyEffect(RunningBucket, BucketOf(RunningBucket, ids, status), tasks, Settled(ids, status, tasks));
  }

  /** A pass that raises nothing gives every running request the status of
      its task, which is paused or completed, capitalised. */
  lemma ReconcileRunningClean(ids: seq<int>, status: map<int, string>, tasks: seq<Task>, id: int)
    requires WellFormedTable(ids, status) && id in status && status[id] == "Running"
    requires Reconcile(ids, status, tasks).error.None?
    ensures var t := FindTask(tasks, id);
      && t.Some? && (t.value.status == "paused" || t.value.status == "completed")
      && Reconcile(ids, status, tasks).status[id] == Capitalize(t.value.status)
  {
    var running := BucketOf(RunningBucket, ids, status);
    assert id in running;
    var k :| 0 <= k < |running| && running[k] == id;
    RunningRaises(ids, status, tasks);
    RunningRow(ids, status, tasks, k);
  }

  /** A pass that raises does so at the first running request whose task
      is missing or neither paused nor completed, with that request's
      error; the running requests before it take their task's status,
      capitalised, and that one and every later one keep theirs. */
  lemma ReconcileRunningFailed(ids: seq<int>, status: map<int, string>, tasks: seq<Task>)
    requires WellFormedTable(ids, status)
    requires Reconcile(ids, status, tasks).error.Some?
    ensures var r := Reconcile(ids, status, tasks);
      var running := BucketOf(RunningBucket, ids, status);
      var k := FirstRaise(RunningBucket, running, tasks);
      && k < |running|
      && Rule(RunningBucket, running[k], FindTask(tasks, running[k])) == Raise(r.error.value)
      && (forall i :: 0 <= i < k ==>
            var t := FindTask(tasks, running[i]);
            t.Some? && r.status[running[i]] == Capitalize(t.value.status))
      && (forall i :: k <= i < |running| ==> r.status[running[i]] == status[running[i]])
  {
    RunningRaises(ids, status, tasks);
    var running := BucketOf(RunningBucket, ids, status);
    var r := Reconcile(ids, status, tasks);
    var k := FirstRaise(RunningBucket, running, tasks);
    forall i | 0 <= i < k
      ensures var t := FindTask(tasks, running[i]);
              t.Some? && r.status[running[i]] == Capitalize(t.value.status)
    {
      RunningRow(ids, status, tasks, i);
    }
    forall i | k <= i < |running| ensures r.status[running[i]] == status[running[i]] {
      RunningRow(ids, status, tasks, i);
    }
  }

  lemma CapitalizedPaused()
    ensures Capitalize("paused") == "Paused"
  {
    CapitalizeKeepsLowerTail("paused");
  }

  lemma CapitalizedCompleted()
    ensures Capitalize("completed") == "Completed"
  {
    CapitalizeKeepsLowerTail("completed");
  }

  /** The task statuses a pass copies, as the table spells them. */
  lemma CapitalizedStatuses()
    ensures Capitalize("paused") == "Paused"
    ensures Capitalize("completed") == "Completed"
  {
    CapitalizedPaused();
    CapitalizedCompleted();
  }

  /** After a pass that raises nothing, every approved, paused or running
      request that has a task carries that task's status, capitalised. */
  lemma CleanPassMirrorsTasks(ids: seq<int>, status: map<int, string>, tasks: seq<Task>, id: int)
    requires WellFormedTable(ids, status) && id in status
    requires status[id] == "Approved" || status[id] == "Paused" || status[id] == "Running"
    requires FindTask(tasks, id).Some?
    requires Reconcile(ids, status, tasks).error.None?
    ensures Reconcile(ids, status, tasks).status[id] == Capitalize(FindTask(tasks, id).value.status)
  {
    CapitalizedStatuses();
    if status[id] == "Running" {
      ReconcileRunningClean(ids, status, tasks, id);
    } else {
      ReconcileSettled(ids, status, tasks, id);
    }
  }

  // ---------------------------------------------------------------------
  // The request table and monitor_requests

  /** The `requests` table: the ids in the order a query returns rows, and
      each request's status. */
  class RequestsTable {
    var rows: seq<int>
    var status: map<int, string>

    ghost predicate Valid()
      reads this
    {
      WellFormedTable(rows, status)
    }

    constructor (rows: seq<int>, status: map<int, string>)
      requires WellFormedTable(rows, status)
      ensures Valid() && this.rows == rows && this.status == status
    {
      this.rows := rows;
      this.status := status;
    }

    /** `query(Requests).filter(Requests.id == id).update(status=s)`. */
    method UpdateStatus(id: int, s: string)
      requires Valid()
      modifies this
      ensures Valid() && rows == old(rows)
      ensures status == SetRow(old(status), id, s)
    {
      if id in status {
        status := status[id := s];
      }
    }
  }

  /** The loop over approved requests: each one with a task takes the
      task's status. */
  method SyncApproved(db: RequestsTable, approved: seq<int>, tasks: seq<Task>)
    requires db.Valid()
    modifies db
    ensures db.Valid() && db.rows == old(db.rows)
    ensures PassState(db.status, None) == Apply(ApprovedBucket, approved, tasks, old(db.status))
  {
    var i := 0;
    while i < |approved|
      invariant 0 <= i <= |approved|
      invariant db.Valid() && db.rows == old(db.rows)
      invariant Apply(ApprovedBucket, approved[i..], tasks, db.status)
             == Apply(ApprovedBucket, approved, tasks, old(db.status))
    {
      var task := GetGangaRequest(tasks, approved[i]);
      if task.Some? {
        db.UpdateStatus(approved[i], Capitalize(task.value.status));
      }
      assert approved[i..][1..] == approved[i + 1..];
      i := i + 1;
    }
  }

  /** The loop over paused requests: each one whose task is no longer
      paused takes the task's status. */
  method SyncPaused(db: RequestsTable, paused: seq<int>, tasks: seq<Task>)
    requires db.Valid()
    modifies db
    ensures db.Valid() && db.rows == old(db.rows)
    ensures PassState(db.status, None) == Apply(PausedBucket, paused, tasks, old(db.status))
  {
    var i := 0;
    while i < |paused|
      invariant 0 <= i <= |paused|
      invariant db.Valid() && db.rows == old(db.rows)
      invariant Apply(PausedBucket, paused[i..], tasks, db.status)
             == Apply(PausedBucket, paused, tasks, old(db.status))
    {
      var task := GetGangaRequest(tasks, paused[i]);
      if task.Some? && task.value.status != "paused" {
        db.UpdateStatus(paused[i], Capitalize(task.value.status));
      }
      assert paused[i..][1..] == paused[i + 1..];
      i := i + 1;
    }
  }

  /** The loop over running requests: each one must have a task that is
      paused or completed, and takes its status; the first that does not
      ends the pass with an error. */
  method SyncRunning(db: RequestsTable, running: seq<int>, tasks: seq<Task>) returns (error: Option<MonitorError>)
    requires db.Valid()
    modifies db
    ensures db.Valid() && db.rows == old(db.rows)
    ensures PassState(db.status, error) == Apply(RunningBucket, running, tasks, old(db.status))
  {
    var i := 0;
    while i < |running|
      invariant 0 <= i <= |running|
      invariant db.Valid() && db.rows == old(db.rows)
      invariant Apply(RunningBucket, running[i..], tasks, db.status)
             == Apply(RunningBucket, running, tasks, old(db.status))
    {
      var task := GetGangaRequest(tasks, running[i]);
      if task.None? {
        return Some(NoTask(running[i]));
      }
      if task.value.status != "paused" && task.value.status != "completed" {
        return Some(UnexpectedTaskStatus(running[i], task.value.status));
      }
      // a completed task would have its results fed back here
      db.UpdateStatus(running[i], Capitalize(task.value.status));
      assert running[i..][1..] == running[i + 1..];
      i := i + 1;
    }
    return None;
  }

  /** `monitor_requests`: one pass over the table. The buckets are read
      once, from the table as the pass finds it; the table ends as
      `Reconcile` says, and the error that ends the pass early, if any, is
      returned. */
  method MonitorRequests(db: RequestsTable, tasks: seq<Task>) returns (error: Option<MonitorError>)
    requires db.Valid()
    modifies db
    ensures db.Valid() && db.rows == old(db.rows)
    ensures PassState(db.status, error) == Reconcile(old(db.rows), old(db.status), tasks)
  {
    var approved := BucketOf(ApprovedBucket, db.rows, db.status);
    var paused := BucketOf(PausedBucket, db.rows, db.status);
    var running := BucketOf(RunningBucket, db.rows, db.status);
    SyncApproved(db, approved, tasks);
    SyncPaused(db, paused, tasks);
    error := SyncRunning(db, running, tasks);
  }

  // ---------------------------------------------------------------------
  // auto_cleanup_request

  /** The ganga task registry (`ganga.tasks`). */
  class TaskRegistry {
    var tasks: seq<Task>

    constructor (tasks: seq<Task>)
      ensures this.tasks == tasks
    {
      this.tasks := tasks;
    }
  }

  /** `with auto_cleanup_request() as req: body`. The new request `created`
      (what `ganga.LZRequest()` makes) joins the registry and the body runs
      on it. If the body raises, the request is removed with its jobs and
      the same error is raised again; otherwise the request stays, as the
      body left it. */
  method AutoCleanupRequest(registry: TaskRegistry, created: Task, body: Task -> Result<Task, string>)
    returns (r: Result<Task, string>)
    modifies registry
    ensures r == body(created)
    ensures r.Err? ==> registry.tasks == old(registry.tasks)
    ensures r.Ok? ==> registry.tasks == old(registry.tasks) + [r.value]
  {
    registry.tasks := registry.tasks + [created];
    r := body(created);
    if r.Err? {
      registry.tasks := registry.tasks[..|registry.tasks| - 1];
      return;
    }
    registry.tasks := registry.tasks[..|registry.tasks| - 1] + [r.value];
  }
}
