/**
 The job registry of the command layer and the sink that arbitrates terminal events, as objects. Each
 method takes the step of the protocol that it stands for.
 */
module AuthJobs {
  import opened Text
  import opened AuthCore
  import opened AuthProtocol

  datatype Terminal = CompletedJob | CancelledJob | AlreadyTerminal

  class JobRegistry {
    var jobs: map<Id, JobEntry>
    var told: set<TaskNo>       // whose cancellation token was cancelled
    var outbox: seq<Notice>     // terminal events forwarded to the client

    /** The object stands where the protocol's state says. */
    ghost predicate Represents(s: State)
      reads this
    {
      jobs == s.jobs && told == s.cancelWon && outbox == s.outbox
    }

    constructor ()
      ensures Represents(START)
    {
      jobs, told, outbox := map[], {}, [];
    }

    /** Refused while an attempt of the same id is registered. */
    method TryInsert(id: Id, task: TaskNo, ghost s: State) returns (ok: bool)
      requires Represents(s) && task == s.next
      modifies this
      ensures ok == Enabled(s, Register(id))
      ensures Represents(if ok then Apply(s, Register(id)) else s)
    {
      if id in jobs {
        return false;
      }
      jobs := jobs[id := JobEntry(Running, task)];
      ok := true;
    }

    /** Only a running attempt can be cancelled; the answer tells whether this cancellation is the one that counts. */
    method CancelJob(id: Id, ghost s: State) returns (won: bool)
      requires Represents(s)
      modifies this
      ensures won == Enabled(s, Cancel(id))
      ensures Represents(if won then Apply(s, Cancel(id)) else s)
    {
      if id !in jobs || jobs[id].phase != Running {
        return false;
      }
      told := told + {jobs[id].task};
      jobs := jobs[id := JobEntry(Cancelling, jobs[id].task)];
      won := true;
    }

    method CancelAllJobs(ghost s: State) returns (won: set<Id>)
      requires Represents(s)
      modifies this
      ensures won == set id | id in s.jobs && s.jobs[id].phase == Running
      ensures Represents(Apply(s, CancelAll))
    {
      won := {};
      var left := jobs.Keys;
      while left != {}
        invariant left <= jobs.Keys == s.jobs.Keys && outbox == s.outbox
        invariant forall id | id in left :: jobs[id] == s.jobs[id]
        invariant forall id | id in s.jobs && id !in left :: jobs[id] == s.jobs[id].(phase := Cancelling)
        invariant won == set id | id in s.jobs && id !in left && s.jobs[id].phase == Running
        invariant told == s.cancelWon + set id | id in won :: s.jobs[id].task
        decreases left
      {
        var id :| id in left;
        if jobs[id].phase == Running {
          told := told + {jobs[id].task};
          won := won + {id};
        }
        jobs := jobs[id := jobs[id].(phase := Cancelling)];
        left := left - {id};
      }
      assert jobs == DoCancelAll(s).jobs;
    }

    method FinishJob(id: Id) returns (terminal: Terminal)
      modifies this`jobs
      ensures jobs == old(jobs) - {id}
      ensures terminal ==
        if id !in old(jobs) then AlreadyTerminal
        else if old(jobs)[id].phase == Cancelling then CancelledJob
        else CompletedJob
    {
      if id !in jobs {
        return AlreadyTerminal;
      }
      terminal := if jobs[id].phase == Cancelling then CancelledJob else CompletedJob;
      jobs := jobs - {id};
    }

    /**
     Emitting the terminal event of an attempt: the job is finished first, and the event that goes out is
     the one the registry allows. The answer tells whether it is the event asked for.
     */
    method Emit(t: TaskNo, event: Event, ghost s: State, id: Id) returns (accepted: bool)
      requires Represents(s) && t in s.tasks && s.tasks[t].LoginTask? && s.tasks[t].id == id
      modifies this
      ensures Represents(Publish(s, t, event))
      ensures accepted <==> id in s.jobs && (s.jobs[id].phase == Running || event == Cancelled)
    {
      var terminal := FinishJob(id);
      match terminal
      case CompletedJob =>
        outbox := outbox + [Notice(t, event)];
        accepted := true;
      case CancelledJob =>
        outbox := outbox + [Notice(t, Cancelled)];
        accepted := event == Cancelled;
      case AlreadyTerminal =>
        accepted := false;
    }
  }
}
