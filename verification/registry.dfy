/**
 The in-memory task registry of the browser-test service: the values it
 stores, the replies its two route handlers return, the background jobs the
 submit handler schedules, and a pure specification of one submission.
 */
module Registry {

  datatype Option<T> = None | Some(value: T)

  /** Stand-in for the free-form `details` dictionary a finished task may carry. */
  type Details = map<string, string>

  /** One registry value: a dictionary with a `status` key and an optional `details` key. */
  datatype Entry = Entry(status: string, details: Option<Details>)
  {
    /** The entry's details, or the empty dictionary when it has none. */
    function DetailsOrEmpty(): Details
    {
      match details
      case Some(d) => d
      case None => map[]
    }
  }

  /** A handler's JSON reply: always a `status`, and `details` only on a finished task. */
  datatype Reply = Reply(status: string, details: Option<Details>)

  /** A job added to a call's `background_tasks`: run the browser test for an id and a URL. */
  datatype Job = RunTestInBackground(taskId: string, url: string)

  const Pending: string := "pending"
  const AlreadyExists: string := "Task ID Already exists"
  /** The video URL every test is run against; the submit handler hard-codes it. */
  const YoutubeUrl: string := "https://www.youtube.com/watch?v=Xlaioa4Cg1U"

  /** What one submission leaves behind: the new registry, the new job log and the reply. */
  datatype Outcome = Outcome(tasks: map<string, Entry>, scheduled: seq<Job>, reply: Reply)

  /** Every entry of the registry is still pending. */
  ghost predicate AllPending(tasks: map<string, Entry>)
  {
    forall id :: id in tasks ==> tasks[id] == Entry(Pending, None)
  }

  /** The task ids named by the jobs of a log. */
  function JobIds(scheduled: seq<Job>): set<string>
  {
    set i | 0 <= i < |scheduled| :: scheduled[i].taskId
  }

  /** No two jobs of the log are for the same task id. */
  ghost predicate DistinctIds(scheduled: seq<Job>)
  {
    forall i, j :: 0 <= i < j < |scheduled| ==> scheduled[i].taskId != scheduled[j].taskId
  }

  /**
   Exactly one job per registered id, each for the fixed video URL: the
   log's ids are the registry's keys and none repeats.
   */
  ghost predicate OneJobPerTask(tasks: map<string, Entry>, scheduled: seq<Job>)
  {
    && DistinctIds(scheduled)
    && JobIds(scheduled) == tasks.Keys
    && forall i :: 0 <= i < |scheduled| ==> scheduled[i].url == YoutubeUrl
  }

  /**
   One call of the submit handler as a function of the state before it: a
   guarded insert that, when the id is new, also requests one background job.
   */
  function Submit(tasks: map<string, Entry>, scheduled: seq<Job>, taskId: string): (o: Outcome)
    // the reply tells acceptance from rejection and never carries details
    ensures o.reply.details == None
    ensures o.reply.status == Pending <==> taskId !in tasks
    ensures o.reply.status == AlreadyExists <==> taskId in tasks
    // a known id, whatever its status, leaves registry and job log exactly as they were
    ensures taskId in tasks ==> o.tasks == tasks && o.scheduled == scheduled
    // a new id is added as pending, and exactly one job for it is appended
    ensures taskId !in tasks ==>
              && o.tasks.Keys == tasks.Keys + {taskId}
              && o.tasks[taskId] == Entry(Pending, None)
              && o.scheduled == scheduled + [RunTestInBackground(taskId, YoutubeUrl)]
    // no existing entry is changed, and the registry grows by at most one key
    ensures forall id :: id in tasks ==> id in o.tasks && o.tasks[id] == tasks[id]
    ensures |tasks| <= |o.tasks| <= |tasks| + 1
    // jobs are logged exactly as fast as keys are added
    ensures |o.scheduled| - |scheduled| == |o.tasks| - |tasks|
    // no status other than pending is ever written
    ensures AllPending(tasks) ==> AllPending(o.tasks)
  {
    if taskId in tasks then
      Outcome(tasks, scheduled, Reply(AlreadyExists, None))
    else
      Outcome(tasks[taskId := Entry(Pending, None)],
              scheduled + [RunTestInBackground(taskId, YoutubeUrl)],
              Reply(Pending, None))
  }

  /** A submission keeps the job log in step with the registry: one job per id. */
  lemma SubmitPreservesOneJobPerTask(tasks: map<string, Entry>, scheduled: seq<Job>, taskId: string)
    requires OneJobPerTask(tasks, scheduled)
    ensures OneJobPerTask(Submit(tasks, scheduled, taskId).tasks, Submit(tasks, scheduled, taskId).scheduled)
  {
    if taskId !in tasks {
      var job := RunTestInBackground(taskId, YoutubeUrl);
      var s' := scheduled + [job];
      assert JobIds(s') == JobIds(scheduled) + {taskId} by {
        forall id | id in JobIds(s') ensures id in JobIds(scheduled) + {taskId} {
          var i :| 0 <= i < |s'| && s'[i].taskId == id;
          if i < |scheduled| { assert scheduled[i].taskId == id; }
        }
        forall id | id in JobIds(scheduled) ensures id in JobIds(s') {
          var i :| 0 <= i < |scheduled| && scheduled[i].taskId == id;
          assert s'[i] == scheduled[i];
        }
        assert s'[|scheduled|].taskId == taskId;
      }
      forall i, j | 0 <= i < j < |s'| ensures s'[i].taskId != s'[j].taskId {
        if j == |scheduled| {
          assert scheduled[i].taskId in JobIds(scheduled);
        }
      }
    }
  }

  /** Ids that never repeat in a log are as many as its jobs. */
  lemma {:induction false} DistinctIdsCount(scheduled: seq<Job>)
    requires DistinctIds(scheduled)
    ensures |JobIds(scheduled)| == |scheduled|
  {
    if scheduled != [] {
      var n := |scheduled| - 1;
      var prefix := scheduled[..n];
      assert DistinctIds(prefix) by {
        forall i, j | 0 <= i < j < |prefix| ensures prefix[i].taskId != prefix[j].taskId {
          assert prefix[i] == scheduled[i] && prefix[j] == scheduled[j];
        }
      }
      DistinctIdsCount(prefix);
      assert scheduled[n].taskId !in JobIds(prefix) by {
        forall i | 0 <= i < n ensures prefix[i].taskId != scheduled[n].taskId {
          assert prefix[i] == scheduled[i];
        }
      }
      assert JobIds(scheduled) == JobIds(prefix) + {scheduled[n].taskId} by {
        forall id | id in JobIds(scheduled) ensures id in JobIds(prefix) + {scheduled[n].taskId} {
          var i :| 0 <= i < |scheduled| && scheduled[i].taskId == id;
          if i < n { assert prefix[i] == scheduled[i]; }
        }
        forall id | id in JobIds(prefix) ensures id in JobIds(scheduled) {
          var i :| 0 <= i < n && prefix[i].taskId == id;
          assert scheduled[i] == prefix[i];
        }
      }
    }
  }

  /** While one job is logged per task, the log is exactly as long as the registry is large. */
  lemma JobCountMatchesRegistry(tasks: map<string, Entry>, scheduled: seq<Job>)
    requires OneJobPerTask(tasks, scheduled)
    ensures |scheduled| == |tasks|
  {
    DistinctIdsCount(scheduled);
    assert |tasks| == |tasks.Keys|;
  }

  /** Submitting the same id twice: the second call is rejected and changes nothing. */
  lemma ResubmitIsRejected(tasks: map<string, Entry>, scheduled: seq<Job>, taskId: string)
    ensures var first := Submit(tasks, scheduled, taskId);
            Submit(first.tasks, first.scheduled, taskId)
              == Outcome(first.tasks, first.scheduled, Reply(AlreadyExists, None))
  {
  }
}
