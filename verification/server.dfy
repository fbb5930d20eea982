/**
 The two route handlers of the browser-test service over the module-level
 task registry, together with a log of the background jobs the submit handler
 has requested.
 */
module Server {
  import opened Registry

  class TaskServer {
    /** The module-level registry: task id to its entry. */
    var tasks: map<string, Entry>
    /**
     The log of jobs added to each call's `background_tasks` argument, oldest
     first: every submit call gets its own job list, and this field keeps all
     of them in one sequence. The jobs are never run here.
     */
    var scheduled: seq<Job>

    /** What holds in every reachable state: all entries pending, one requested job per entry. */
    ghost predicate Valid()
      reads this
    {
      AllPending(tasks) && OneJobPerTask(tasks, scheduled)
    }

    /** The process starts with an empty registry and an empty job log. */
    constructor ()
      ensures tasks == map[] && scheduled == []
      ensures Valid()
    {
      tasks := map[];
      scheduled := [];
    }

    /**
     The submit handler: registers a new id as pending and requests its browser
     test, or rejects an id that is already registered.
     */
    method StartTest(taskId: string) returns (reply: Reply)
      modifies this
      ensures Outcome(tasks, scheduled, reply) == Submit(old(tasks), old(scheduled), taskId)
      ensures reply.status == Pending <==> taskId !in old(tasks)
      ensures taskId in tasks
      ensures reply.status == Pending ==> GetResult(taskId) == Reply(Pending, None)
      ensures old(Valid()) ==> Valid()
    {
      var youtubeUrl := YoutubeUrl;
      if taskId in tasks {
        return Reply(AlreadyExists, None);
      }
      if OneJobPerTask(tasks, scheduled) {
        SubmitPreservesOneJobPerTask(tasks, scheduled, taskId);
      }
      tasks := tasks[taskId := Entry(Pending, None)];
      scheduled := scheduled + [RunTestInBackground(taskId, youtubeUrl)];
      reply := Reply(Pending, None);
    }

    /**
     The result handler: an unknown id and a pending entry both read as a bare
     pending reply; any other status comes back with the entry's details, or
     with an empty dictionary when it has none.
     */
    function GetResult(taskId: string): (r: Reply)
      reads this
      ensures r.status == Pending <==> taskId !in tasks || tasks[taskId].status == Pending
      ensures r.status == Pending ==> r.details == None
      ensures taskId in tasks && tasks[taskId].status != Pending ==>
                && r.status == tasks[taskId].status
                && r.details == Some(tasks[taskId].DetailsOrEmpty())
                && (tasks[taskId].details.None? ==> r.details == Some(map[]))
    {
      if taskId !in tasks || tasks[taskId].status == Pending then
        Reply(Pending, None)
      else
        Reply(tasks[taskId].status, Some(tasks[taskId].DetailsOrEmpty()))
    }

    /** In every reachable state every id, submitted or not, reads as pending. */
    lemma ValidResultIsPending(taskId: string)
      requires Valid()
      ensures GetResult(taskId) == Reply(Pending, None)
    {
    }
  }
}
