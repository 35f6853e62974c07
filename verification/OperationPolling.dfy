/** The composable that polls an agent session's background operations, as a class. */
module OperationPolling {
  import opened Wrappers
  import opened PollScheduler

  class OperationsController {
    var operations: seq<Operation>
    var pollTimers: map<string, nat>
    var generation: nat
    var activeSession: Option<int>
    // Started outside: armed timers, requests that have not been answered.
    var armed: map<nat, (string, nat)>
    var polls: multiset<(string, nat)>
    var loads: map<nat, Load>
    var nextHandle: nat

    constructor ()
      ensures Current() == INIT
    {
      operations, pollTimers, generation, activeSession := [], map[], 0, None;
      armed, polls, loads, nextHandle := map[], multiset{}, map[], 0;
    }

    ghost function Current(): State
      reads this
    {
      State(operations, pollTimers, generation, activeSession, armed, polls, loads, nextHandle)
    }

    method ClearPollTimer(id: string)
      modifies this`armed, this`pollTimers
      ensures Current() == ClearTimer(old(Current()), id)
    {
      if id in pollTimers {
        armed := armed - {pollTimers[id]};
      }
      pollTimers := pollTimers - {id};
    }

    method ClearPollTimers()
      modifies this`armed, this`pollTimers
      ensures Current() == ClearTimers(old(Current()))
    {
      var left := pollTimers.Values;
      while left != {}
        invariant left <= pollTimers.Values && pollTimers == old(pollTimers)
        invariant armed == old(armed) - (pollTimers.Values - left)
      {
        var timer :| timer in left;
        armed := armed - {timer};
        left := left - {timer};
      }
      pollTimers := map[];
    }

    method UpsertOperation(operation: Operation)
      modifies this`operations
      ensures Current() == old(Current()).(operations := Upsert(old(operations), operation))
    {
      var index := IndexOf(operations, operation.id);
      if index < 0 {
        operations := operations + [operation];
      } else {
        operations := operations[index := Merge(operations[index], operation)];
      }
    }

    method SchedulePoll(id: string, targetGeneration: nat)
      modifies this`armed, this`pollTimers, this`nextHandle
      ensures Current() == Schedule(old(Current()), id, targetGeneration)
    {
      if targetGeneration != generation || id in pollTimers { return; }
      pollTimers := pollTimers[id := nextHandle];
      armed := armed[nextHandle := (id, targetGeneration)];
      nextHandle := nextHandle + 1;
    }

    /** `pollOperation` up to the request. */
    method PollOperation(id: string, targetGeneration: nat)
      modifies this`polls
      ensures Current() == BeginPoll(old(Current()), id, targetGeneration)
    {
      if targetGeneration != generation { return; }
      polls := polls + multiset{(id, targetGeneration)};
    }

    /** `pollOperation` from the answer on; `None` is a failed request. */
    method PollAnswered(id: string, targetGeneration: nat, answer: Option<Operation>)
      requires (id, targetGeneration) in polls
      modifies this
      ensures Current() == Step(old(Current()), PollAnswers(id, targetGeneration, answer))
    {
      polls := polls - multiset{(id, targetGeneration)};
      if answer.Some? {
        if targetGeneration != generation { return; }
        UpsertOperation(answer.value);
        if answer.value.terminal {
          ClearPollTimer(id);
          return;
        }
      }
      SchedulePoll(id, targetGeneration);
    }

    method TimerFired(timer: nat)
      requires timer in armed
      modifies this`armed, this`pollTimers, this`polls
      ensures Current() == Step(old(Current()), TimerFires(timer))
    {
      var (id, targetGeneration) := armed[timer];
      armed := armed - {timer};
      pollTimers := pollTimers - {id};
      PollOperation(id, targetGeneration);
    }

    method EnsurePolling(operation: Operation)
      modifies this`armed, this`pollTimers, this`nextHandle
      ensures Current() == PollScheduler.EnsurePolling(old(Current()), operation)
    {
      if operation.terminal {
        ClearPollTimer(operation.id);
        return;
      }
      SchedulePoll(operation.id, generation);
    }

    method ResumePolling()
      modifies this`armed, this`pollTimers, this`nextHandle
      ensures Current() == EnsureAll(old(Current()), old(operations))
      ensures Current() == Step(old(Current()), PollScheduler.ResumePolling)
    {
      for i := 0 to |operations|
        invariant operations == old(operations) && Current() == EnsureAll(old(Current()), operations[..i])
      {
        assert operations[..i + 1][..i] == operations[..i];
        EnsurePolling(operations[i]);
      }
      assert operations[..|operations|] == operations;
    }

    method AcknowledgeScheduled(provisional: Operation)
      modifies this`operations, this`polls
      ensures Current() == Step(old(Current()), Acknowledge(provisional))
    {
      UpsertOperation(provisional);
      PollOperation(provisional.id, generation);
    }

    /** `loadSession` up to the first request. */
    method LoadSession(session: int)
      modifies this
      ensures Current() == Step(old(Current()), PollScheduler.LoadSession(session))
    {
      if activeSession != Some(session) {
        generation := generation + 1;
        activeSession := Some(session);
        ClearPollTimers();
        operations := [];
      }
      loads := loads[nextHandle := Load(session, generation, [], 1)];
      nextHandle := nextHandle + 1;
    }

    /** `loadSession` from one page to the next request, or to its end. */
    method PageArrived(l: nat, page: Page)
      requires l in loads
      modifies this
      ensures Current() == Step(old(Current()), PageArrives(l, page))
    {
      var load := WithPage(loads[l], page);
      if load.generation != generation || activeSession != Some(load.session) {
        loads := loads - {l};
        return;
      }
      if |load.pages| < load.wanted {
        loads := loads[l := load];
        return;
      }
      loads := loads - {l};
      operations := MergeOperationLists(operations, LastPageFirst(load.pages));
      ResumePolling();
    }

    method LoadFailed(l: nat)
      requires l in loads
      modifies this`loads
      ensures Current() == Step(old(Current()), LoadFails(l))
    {
      loads := loads - {l};
    }

    method Dispose()
      modifies this`generation, this`armed, this`pollTimers
      ensures Current() == Step(old(Current()), PollScheduler.Dispose)
    {
      generation := generation + 1;
      ClearPollTimers();
    }
  }

  method MergeOperationLists(current: seq<Operation>, incoming: seq<Operation>) returns (merged: seq<Operation>)
    ensures merged == MergeLists(current, incoming)
    ensures UniqueIds(current) && UniqueIds(incoming) ==> UniqueIds(merged)
  {
    merged := incoming;
    for i := 0 to |current|
      invariant merged == MergeLists(current[..i], incoming)
    {
      assert current[..i + 1][..i] == current[..i];
      var operation := current[i];
      var index := IndexOf(incoming, operation.id);
      if index < 0 {
        merged := merged + [operation];
        continue;
      }
      var selected := Merge(operation, incoming[index]);
      merged := Replace(merged, selected);
    }
    assert current[..|current|] == current;
    if UniqueIds(current) && UniqueIds(incoming) {
      MergeIsKeyUnion(current, incoming);
    }
  }
}
