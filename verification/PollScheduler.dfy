/**
 * Polling of an agent session's background operations. The state holds the client's own fields
 * and what it has started outside: armed timers, polls in flight and session loads in flight.
 * A generation number cuts off everything started before a disposal or a switch of session.
 */
module PollScheduler {
  import opened Wrappers

  /** `provisional` is the projection without team and user that an acknowledgement creates. */
  datatype Operation = Operation(
    id: string, terminal: bool, provisional: bool, sequence: nat, updatedAt: Option<int>, body: string)

  datatype Page = Page(items: seq<Operation>, totalPages: nat, total: nat, pageSize: nat)

  /** `wanted` is known once the first page has arrived. */
  datatype Load = Load(session: int, generation: nat, pages: seq<seq<Operation>>, wanted: nat)

  datatype State = State(
    operations: seq<Operation>, timers: map<string, nat>, generation: nat, session: Option<int>,
    armed: map<nat, (string, nat)>, polls: multiset<(string, nat)>, loads: map<nat, Load>, next: nat)

  datatype Event =
    | Acknowledge(operation: Operation)
    | TimerFires(timer: nat)
    | PollAnswers(id: string, generation: nat, answer: Option<Operation>)
    | LoadSession(session: int)
    | PageArrives(load: nat, page: Page)
    | LoadFails(load: nat)
    | ResumePolling
    | Dispose

  const INIT := State([], map[], 0, None, map[], multiset{}, map[], 0)

  // ----- Merging -----

  predicate Keeps(current: Operation, incoming: Operation) {
    && !(current.provisional && !incoming.provisional)
    && (|| incoming.sequence < current.sequence
        || (incoming.sequence == current.sequence && current.updatedAt.Some? && incoming.updatedAt.Some?
            && incoming.updatedAt.value < current.updatedAt.value))
  }

  /** `mergeAgentAsyncOperation` for two projections of one operation. */
  function Merge(current: Operation, incoming: Operation): Operation {
    if Keeps(current, incoming) then current else incoming
  }

  /**
   * The newer projection wins: one from the server over a provisional one; otherwise the greater
   * sequence number; with one sequence number the later update; and the incoming one if that is not known.
   */
  lemma NewerWins(current: Operation, incoming: Operation)
    ensures var merged := Merge(current, incoming);
      && (merged == current || merged == incoming)
      && (current.provisional && !incoming.provisional ==> merged == incoming)
      && (!(current.provisional && !incoming.provisional) ==>
           && merged.sequence >= current.sequence && merged.sequence >= incoming.sequence
           && (current.sequence == incoming.sequence ==>
                if current.updatedAt.Some? && incoming.updatedAt.Some? then
                  && merged.updatedAt.Some? && merged.updatedAt.value >= current.updatedAt.value
                  && merged.updatedAt.value >= incoming.updatedAt.value
                  && (current.updatedAt == incoming.updatedAt ==> merged == incoming)
                else merged == incoming))
  {
  }

  /** `findIndex` by id, -1 if there is none. */
  function IndexOf(list: seq<Operation>, id: string): (i: int)
    ensures -1 <= i < |list|
    ensures i >= 0 ==> list[i].id == id && forall j :: 0 <= j < i ==> list[j].id != id
    ensures i < 0 ==> forall j :: 0 <= j < |list| ==> list[j].id != id
  {
    if list == [] then -1
    else if list[0].id == id then 0
    else
      var i := IndexOf(list[1..], id);
      if i < 0 then -1 else i + 1
  }

  function Upsert(list: seq<Operation>, incoming: Operation): seq<Operation> {
    var i := IndexOf(list, incoming.id);
    if i < 0 then list + [incoming] else list[i := Merge(list[i], incoming)]
  }

  function Replace(list: seq<Operation>, selected: Operation): (replaced: seq<Operation>)
    ensures |replaced| == |list|
    ensures forall i :: 0 <= i < |list| ==> replaced[i] == if list[i].id == selected.id then selected else list[i]
  {
    seq(|list|, i requires 0 <= i < |list| => if list[i].id == selected.id then selected else list[i])
  }

  /** One turn of the loop of `mergeOperationLists`. */
  function MergeOne(merged: seq<Operation>, operation: Operation, incoming: seq<Operation>): seq<Operation> {
    var i := IndexOf(incoming, operation.id);
    if i < 0 then merged + [operation] else Replace(merged, Merge(operation, incoming[i]))
  }

  function MergeLists(current: seq<Operation>, incoming: seq<Operation>): seq<Operation> {
    if current == [] then incoming
    else MergeOne(MergeLists(current[..|current| - 1], incoming), current[|current| - 1], incoming)
  }

  ghost predicate UniqueIds(list: seq<Operation>) {
    forall i, j :: 0 <= i < j < |list| ==> list[i].id != list[j].id
  }

  /** What an incoming operation becomes. */
  function Selected(current: seq<Operation>, incoming: Operation): Operation {
    var i := IndexOf(current, incoming.id);
    if i < 0 then incoming else Merge(current[i], incoming)
  }

  /** The current operations the incoming list does not know, in order. */
  function Unknown(current: seq<Operation>, incoming: seq<Operation>): seq<Operation> {
    if current == [] then []
    else
      var before, last := Unknown(current[..|current| - 1], incoming), current[|current| - 1];
      if IndexOf(incoming, last.id) < 0 then before + [last] else before
  }

  lemma {:induction false} UnknownAreOthers(current: seq<Operation>, incoming: seq<Operation>)
    requires UniqueIds(current)
    ensures var rest := Unknown(current, incoming);
      && UniqueIds(rest)
      && (forall k :: 0 <= k < |rest| ==> IndexOf(incoming, rest[k].id) < 0 && IndexOf(current, rest[k].id) >= 0)
  {
    hide IndexOf;
    if current != [] {
      var n := |current| - 1;
      UnknownAreOthers(current[..n], incoming);
      var before := Unknown(current[..n], incoming);
      forall k | 0 <= k < |before| ensures IndexOf(current, before[k].id) >= 0 && before[k].id != current[n].id {
        var i := IndexOf(current[..n], before[k].id);
        assert current[i].id == before[k].id;
      }
    }
  }

  /**
   * For lists without duplicates: the incoming operations in their order, each one merged with its
   * current projection, then the current operations that did not come in.
   */
  lemma {:induction false} MergedListsAre(current: seq<Operation>, incoming: seq<Operation>)
    requires UniqueIds(current) && UniqueIds(incoming)
    ensures var merged := MergeLists(current, incoming);
      && |merged| == |incoming| + |Unknown(current, incoming)|
      && (forall i :: 0 <= i < |incoming| ==> merged[i] == Selected(current, incoming[i]))
      && merged[|incoming|..] == Unknown(current, incoming)
  {
    if current != [] {
      var n := |current| - 1;
      var last := current[n];
      MergedListsAre(current[..n], incoming);
      UnknownAreOthers(current[..n], incoming);
      forall i | 0 <= i < |incoming|
        ensures Selected(current, incoming[i]) ==
          if incoming[i].id == last.id then Merge(last, incoming[i]) else Selected(current[..n], incoming[i])
      {
        SelectedByLast(current, incoming[i]);
      }
      var before := MergeLists(current[..n], incoming);
      var at := IndexOf(incoming, last.id);
      if at >= 0 {
        var rest := Unknown(current[..n], incoming);
        forall k | |incoming| <= k < |before| ensures before[k].id != last.id {
          assert before[k] == before[|incoming|..][k - |incoming|] == rest[k - |incoming|];
        }
      } else {
        assert (before + [last])[|incoming|..] == before[|incoming|..] + [last];
      }
    }
  }

  lemma SelectedByLast(current: seq<Operation>, incoming: Operation)
    requires current != [] && UniqueIds(current)
    ensures var n := |current| - 1;
      Selected(current, incoming) ==
        if incoming.id == current[n].id then Merge(current[n], incoming) else Selected(current[..n], incoming)
  {
    var n := |current| - 1;
    var i, j := IndexOf(current, incoming.id), IndexOf(current[..n], incoming.id);
    assert 0 <= i < n ==> current[..n][i] == current[i];
    assert 0 <= j < n ==> current[..n][j] == current[j];
  }

  /** No duplicates, and exactly the ids of both lists. */
  lemma MergeIsKeyUnion(current: seq<Operation>, incoming: seq<Operation>)
    requires UniqueIds(current) && UniqueIds(incoming)
    ensures var merged := MergeLists(current, incoming);
      && UniqueIds(merged)
      && forall id :: IndexOf(merged, id) >= 0 <==> IndexOf(current, id) >= 0 || IndexOf(incoming, id) >= 0
  {
    var merged := MergeLists(current, incoming);
    MergedListsAre(current, incoming);
    UnknownAreOthers(current, incoming);
    assert merged == merged[..|incoming|] + Unknown(current, incoming);
    UniqueWhenSplit(merged[..|incoming|], Unknown(current, incoming), incoming);
    forall id ensures IndexOf(merged, id) >= 0 <==> IndexOf(current, id) >= 0 || IndexOf(incoming, id) >= 0 {
      IdsOfMerged(current, incoming, merged[..|incoming|], id);
    }
  }

  lemma UniqueWhenSplit(head: seq<Operation>, rest: seq<Operation>, incoming: seq<Operation>)
    requires UniqueIds(incoming) && UniqueIds(rest) && |head| == |incoming|
    requires forall i :: 0 <= i < |head| ==> head[i].id == incoming[i].id
    requires forall k :: 0 <= k < |rest| ==> IndexOf(incoming, rest[k].id) < 0
    ensures UniqueIds(head + rest)
  {
    forall i, j | 0 <= i < j < |head + rest| ensures (head + rest)[i].id != (head + rest)[j].id {
      if i < |head| <= j {
        assert IndexOf(incoming, rest[j - |head|].id) < 0;
        assert incoming[i].id == (head + rest)[i].id;
      }
    }
  }

  lemma IdsOfMerged(current: seq<Operation>, incoming: seq<Operation>, head: seq<Operation>, id: string)
    requires UniqueIds(current) && |head| == |incoming|
    requires forall i :: 0 <= i < |head| ==> head[i].id == incoming[i].id
    ensures IndexOf(head + Unknown(current, incoming), id) >= 0 <==> IndexOf(current, id) >= 0 || IndexOf(incoming, id) >= 0
  {
    var rest := Unknown(current, incoming);
    var merged := head + rest;
    UnknownAreOthers(current, incoming);
    var i, j := IndexOf(incoming, id), IndexOf(current, id);
    if i >= 0 {
      assert merged[i].id == id;
    } else if j >= 0 {
      UnknownKeeps(current, incoming, j);
      var k :| 0 <= k < |rest| && rest[k].id == id;
      assert merged[|head| + k].id == id;
    }
  }

  lemma {:induction false} UnknownKeeps(current: seq<Operation>, incoming: seq<Operation>, i: nat)
    requires i < |current| && IndexOf(incoming, current[i].id) < 0
    ensures exists k :: 0 <= k < |Unknown(current, incoming)| && Unknown(current, incoming)[k].id == current[i].id
  {
    var n := |current| - 1;
    var before := Unknown(current[..n], incoming);
    if i < n {
      UnknownKeeps(current[..n], incoming, i);
      var k :| 0 <= k < |before| && before[k].id == current[i].id;
      assert Unknown(current, incoming)[k].id == current[i].id;
    } else {
      assert Unknown(current, incoming)[|before|].id == current[i].id;
    }
  }

  lemma UpsertKeepsOthers(list: seq<Operation>, incoming: Operation)
    ensures UniqueIds(list) ==> UniqueIds(Upsert(list, incoming))
    ensures forall i :: 0 <= i < |Upsert(list, incoming)| && Upsert(list, incoming)[i].id != incoming.id ==>
      i < |list| && Upsert(list, incoming)[i] == list[i]
  {
  }

  /**
   * Storing one projection in a list without duplicates: merged in the place of its operation, or
   * behind all others if it is new; nothing else changes.
   */
  lemma StoredInItsPlace(list: seq<Operation>, incoming: Operation)
    requires UniqueIds(list)
    ensures var stored := Upsert(list, incoming);
      && UniqueIds(stored) && |list| <= |stored|
      && (forall i :: 0 <= i < |list| ==> stored[i] == if list[i].id == incoming.id then Merge(list[i], incoming) else list[i])
      && ((forall i :: 0 <= i < |list| ==> list[i].id != incoming.id) ==> stored == list + [incoming])
      && ((exists i :: 0 <= i < |list| && list[i].id == incoming.id) ==> |stored| == |list|)
  {
    UpsertKeepsOthers(list, incoming);
  }

  // ----- Timers -----

  function ClearTimer(s: State, id: string): State {
    if id in s.timers then s.(armed := s.armed - {s.timers[id]}, timers := s.timers - {id}) else s
  }

  function ClearTimers(s: State): State {
    s.(armed := s.armed - s.timers.Values, timers := map[])
  }

  function Schedule(s: State, id: string, generation: nat): State {
    if generation != s.generation || id in s.timers then s
    else s.(timers := s.timers[id := s.next], armed := s.armed[s.next := (id, generation)], next := s.next + 1)
  }

  function BeginPoll(s: State, id: string, generation: nat): State {
    if generation != s.generation then s else s.(polls := s.polls + multiset{(id, generation)})
  }

  function EnsurePolling(s: State, operation: Operation): State {
    if operation.terminal then ClearTimer(s, operation.id) else Schedule(s, operation.id, s.generation)
  }

  function EnsureAll(s: State, list: seq<Operation>): State {
    if list == [] then s else EnsurePolling(EnsureAll(s, list[..|list| - 1]), list[|list| - 1])
  }

  // ----- Steps -----

  function Max(a: nat, b: nat): nat {
    if a < b then b else a
  }

  /** The page count the first page announces. */
  function PagesWanted(first: Page): nat {
    Max(Max(first.totalPages, if first.pageSize == 0 then 0 else (first.total + first.pageSize - 1) / first.pageSize), 1)
  }

  /** `reverse().flat()`. */
  function LastPageFirst(pages: seq<seq<Operation>>): seq<Operation> {
    if pages == [] then [] else pages[|pages| - 1] + LastPageFirst(pages[..|pages| - 1])
  }

  function WithPage(load: Load, page: Page): Load {
    load.(pages := load.pages + [page.items], wanted := if load.pages == [] then PagesWanted(page) else load.wanted)
  }

  function Answered(s: State, id: string, generation: nat, answer: Option<Operation>): State {
    if generation != s.generation then s
    else
      match answer
      case None => Schedule(s, id, generation)
      case Some(operation) =>
        var t := s.(operations := Upsert(s.operations, operation));
        if operation.terminal then ClearTimer(t, id) else Schedule(t, id, generation)
  }

  function Loaded(s: State, load: Load): State {
    var merged := MergeLists(s.operations, LastPageFirst(load.pages));
    EnsureAll(s.(operations := merged), merged)
  }

  predicate IsCurrent(s: State, load: Load) {
    load.generation == s.generation && s.session == Some(load.session)
  }

  function Switched(s: State, session: int): State {
    if s.session == Some(session) then s
    else ClearTimers(s.(generation := s.generation + 1, session := Some(session))).(operations := [])
  }

  /** A load before its first page. */
  function Requesting(s: State, session: int): State {
    s.(loads := s.loads[s.next := Load(session, s.generation, [], 1)], next := s.next + 1)
  }

  function Step(s: State, e: Event): State {
    match e
    case Acknowledge(operation) =>
      BeginPoll(s.(operations := Upsert(s.operations, operation)), operation.id, s.generation)
    case TimerFires(timer) =>
      if timer !in s.armed then s
      else
        var (id, generation) := s.armed[timer];
        BeginPoll(s.(armed := s.armed - {timer}, timers := s.timers - {id}), id, generation)
    case PollAnswers(id, generation, answer) =>
      if (id, generation) !in s.polls then s
      else Answered(s.(polls := s.polls - multiset{(id, generation)}), id, generation, answer)
    case LoadSession(session) => Requesting(Switched(s, session), session)
    case PageArrives(l, page) =>
      if l !in s.loads then s
      else
        var load := WithPage(s.loads[l], page);
        if !IsCurrent(s, load) then s.(loads := s.loads - {l})
        else if |load.pages| < load.wanted then s.(loads := s.loads[l := load])
        else Loaded(s.(loads := s.loads - {l}), load)
    case LoadFails(l) => s.(loads := s.loads - {l})
    case ResumePolling => EnsureAll(s, s.operations)
    case Dispose => ClearTimers(s.(generation := s.generation + 1))
  }

  function Run(events: seq<Event>): State {
    if events == [] then INIT else Step(Run(events[..|events| - 1]), events[|events| - 1])
  }

  // ----- One timer per operation -----

  /** The client's table and the armed timers are the same, all of the current generation. */
  ghost predicate TimersMatch(s: State) {
    && (forall id :: id in s.timers ==> s.timers[id] in s.armed && s.armed[s.timers[id]] == (id, s.generation))
    && (forall h :: h in s.armed ==> h < s.next && s.armed[h].0 in s.timers && s.timers[s.armed[h].0] == h)
  }

  predicate LoadKnown(s: State, load: Load) {
    load.generation <= s.generation && (load.generation == s.generation ==> s.session == Some(load.session))
  }

  ghost predicate RequestsKnown(s: State) {
    && (forall p :: p in s.polls ==> p.1 <= s.generation)
    && (forall l :: l in s.loads ==> LoadKnown(s, s.loads[l]))
  }

  lemma ClearMatches(s: State, id: string)
    requires TimersMatch(s)
    ensures TimersMatch(ClearTimer(s, id))
  {
  }

  lemma ScheduleMatches(s: State, id: string, generation: nat)
    requires TimersMatch(s)
    ensures TimersMatch(Schedule(s, id, generation))
  {
  }

  lemma ClearAllDisarms(s: State)
    requires forall h :: h in s.armed ==> s.armed[h].0 in s.timers && s.timers[s.armed[h].0] == h
    ensures ClearTimers(s).armed == map[]
  {
  }

  lemma {:induction false} EnsureAllMatches(s: State, list: seq<Operation>)
    requires TimersMatch(s)
    ensures var t := EnsureAll(s, list);
      && TimersMatch(t) && t.next >= s.next
      && t == s.(timers := t.timers, armed := t.armed, next := t.next)
  {
    if list != [] {
      var t := EnsureAll(s, list[..|list| - 1]);
      EnsureAllMatches(s, list[..|list| - 1]);
      ClearMatches(t, list[|list| - 1].id);
      ScheduleMatches(t, list[|list| - 1].id, t.generation);
    }
  }

  lemma StepKeepsTimers(s: State, e: Event)
    requires TimersMatch(s) && RequestsKnown(s)
    ensures TimersMatch(Step(s, e)) && RequestsKnown(Step(s, e))
  {
    hide EnsureAll, MergeLists, Answered, Upsert;
    match e
    case PollAnswers(id, generation, answer) =>
      if (id, generation) in s.polls {
        AnswerArrives(s, id, generation, answer);
      }
    case LoadSession(session) => LoadSessionKeepsTimers(s, session);
    case PageArrives(l, page) => PageKeepsTimers(s, l, page);
    case ResumePolling => EnsureAllMatches(s, s.operations);
    case Dispose => ClearAllDisarms(s.(generation := s.generation + 1));
    case TimerFires(timer) => FiringKeepsTimers(s, timer);
    case _ =>
  }

  lemma {:induction false} AnswerArrives(s: State, id: string, generation: nat, answer: Option<Operation>)
    requires TimersMatch(s) && RequestsKnown(s) && (id, generation) in s.polls
    ensures var t := Step(s, PollAnswers(id, generation, answer)); TimersMatch(t) && RequestsKnown(t)
  {
    hide Answered;
    AnswerKeepsTimers(s.(polls := s.polls - multiset{(id, generation)}), id, generation, answer);
  }

  lemma FiringKeepsTimers(s: State, timer: nat)
    requires TimersMatch(s) && RequestsKnown(s)
    ensures TimersMatch(Step(s, TimerFires(timer))) && RequestsKnown(Step(s, TimerFires(timer)))
  {
  }

  lemma LoadSessionKeepsTimers(s: State, session: int)
    requires TimersMatch(s) && RequestsKnown(s)
    ensures TimersMatch(Step(s, LoadSession(session))) && RequestsKnown(Step(s, LoadSession(session)))
  {
    ClearAllDisarms(s.(generation := s.generation + 1, session := Some(session)));
  }

  lemma PageKeepsTimers(s: State, l: nat, page: Page)
    requires TimersMatch(s) && RequestsKnown(s)
    ensures TimersMatch(Step(s, PageArrives(l, page))) && RequestsKnown(Step(s, PageArrives(l, page)))
  {
    hide EnsureAll, MergeLists;
    if l in s.loads {
      var load := WithPage(s.loads[l], page);
      var merged := MergeLists(s.operations, LastPageFirst(load.pages));
      EnsureAllMatches(s.(loads := s.loads - {l}, operations := merged), merged);
    }
  }

  lemma {:induction false} AnswerKeepsTimers(s: State, id: string, generation: nat, answer: Option<Operation>)
    requires TimersMatch(s) && RequestsKnown(s)
    ensures TimersMatch(Answered(s, id, generation, answer)) && RequestsKnown(Answered(s, id, generation, answer))
  {
    if answer.Some? {
      var t := s.(operations := Upsert(s.operations, answer.value));
      ClearMatches(t, id);
      ScheduleMatches(t, id, generation);
    } else {
      ScheduleMatches(s, id, generation);
    }
  }

  lemma {:induction false} TimersAlwaysMatch(events: seq<Event>)
    ensures TimersMatch(Run(events)) && RequestsKnown(Run(events))
  {
    if events != [] {
      TimersAlwaysMatch(events[..|events| - 1]);
      StepKeepsTimers(Run(events[..|events| - 1]), events[|events| - 1]);
    }
  }

  /** In every run an operation has at most one armed timer, and only of the current generation. */
  lemma OneTimerPerOperation(events: seq<Event>, a: nat, b: nat)
    requires a in Run(events).armed && b in Run(events).armed
    ensures Run(events).armed[a].1 == Run(events).generation
    ensures Run(events).armed[a].0 == Run(events).armed[b].0 ==> a == b
  {
    TimersAlwaysMatch(events);
  }

  // ----- Isolation -----

  ghost predicate SamePolls(s: State, t: State) {
    forall id, generation :: generation >= s.generation ==> s.polls[(id, generation)] == t.polls[(id, generation)]
  }

  /** Does the second client have the loads of the first that are not of older generations? */
  ghost predicate HasLoads(s: State, t: State) {
    forall l :: l in s.loads && s.loads[l].generation >= s.generation ==> l in t.loads && t.loads[l] == s.loads[l]
  }

  /** Two clients that differ at most in polls and loads of older generations. */
  ghost predicate Alike(s: State, t: State) {
    && t == s.(polls := t.polls, loads := t.loads)
    && SamePolls(s, t) && HasLoads(s, t) && HasLoads(t, s)
  }

  /** The client without what it has requested in older generations. */
  function Forget(s: State): State {
    s.(polls := multiset{}, loads := map[])
  }

  /** Polling a list and taking an answer do not look at polls and loads in flight. */
  lemma {:induction false} EnsureAllIsFramed(s: State, list: seq<Operation>, polls: multiset<(string, nat)>, loads: map<nat, Load>)
    ensures EnsureAll(s.(polls := polls, loads := loads), list) == EnsureAll(s, list).(polls := polls, loads := loads)
    ensures EnsureAll(s, list) ==
      s.(timers := EnsureAll(s, list).timers, armed := EnsureAll(s, list).armed, next := EnsureAll(s, list).next)
  {
    if list != [] {
      EnsureAllIsFramed(s, list[..|list| - 1], polls, loads);
    }
  }

  lemma {:induction false} EnsureAllKeepsAlike(s: State, t: State, list: seq<Operation>)
    requires Alike(s, t)
    ensures Alike(EnsureAll(s, list), EnsureAll(t, list))
  {
    hide EnsureAll;
    EnsureAllIsFramed(s, list, t.polls, t.loads);
    EnsureAllIsFramed(s, list, s.polls, s.loads);
  }

  /** What the rest of a run makes of a client. */
  function Continue(s: State, events: seq<Event>): State {
    if events == [] then s else Step(Continue(s, events[..|events| - 1]), events[|events| - 1])
  }

  lemma AnsweredIsFramed(s: State, id: string, generation: nat, answer: Option<Operation>, polls: multiset<(string, nat)>, loads: map<nat, Load>)
    ensures var framed := Answered(s.(polls := polls, loads := loads), id, generation, answer);
      framed == Answered(s, id, generation, answer).(polls := polls, loads := loads)
    ensures var u := Answered(s, id, generation, answer);
      u == s.(operations := u.operations, timers := u.timers, armed := u.armed, next := u.next)
    ensures generation != s.generation ==> Answered(s, id, generation, answer) == s
  {
    hide Upsert;
  }

  lemma AnsweredKeepsAlike(s: State, t: State, id: string, generation: nat, answer: Option<Operation>)
    requires Alike(s, t)
    ensures Alike(Answered(s, id, generation, answer), Answered(t, id, generation, answer))
  {
    hide Answered;
    AnsweredIsFramed(s, id, generation, answer, t.polls, t.loads);
    AnsweredIsFramed(s, id, generation, answer, s.polls, s.loads);
  }

  lemma TakingOffKeepsAlike(s: State, t: State, answered: multiset<(string, nat)>)
    requires Alike(s, t)
    ensures Alike(s.(polls := s.polls - answered), t.(polls := t.polls - answered))
  {
    var u, v := s.(polls := s.polls - answered), t.(polls := t.polls - answered);
    forall id, generation | generation >= s.generation ensures u.polls[(id, generation)] == v.polls[(id, generation)] {
      assert s.polls[(id, generation)] == t.polls[(id, generation)];
    }
  }

  lemma OldAnswerIsTakenOff(s: State, id: string, generation: nat, answer: Option<Operation>)
    requires generation != s.generation || (id, generation) !in s.polls
    ensures Step(s, PollAnswers(id, generation, answer)) == s.(polls := s.polls - multiset{(id, generation)})
  {
    if (id, generation) !in s.polls {
      assert s.polls - multiset{(id, generation)} == s.polls;
    }
  }

  lemma AnswerKeepsAlike(s: State, t: State, id: string, generation: nat, answer: Option<Operation>)
    requires Alike(s, t)
    ensures Alike(Step(s, PollAnswers(id, generation, answer)), Step(t, PollAnswers(id, generation, answer)))
  {
    var answered := multiset{(id, generation)};
    TakingOffKeepsAlike(s, t, answered);
    assert s.generation == t.generation && (generation == s.generation ==> s.polls[(id, generation)] == t.polls[(id, generation)]);
    hide Answered, Alike;
    if generation == s.generation && (id, generation) in s.polls {
      AnsweredKeepsAlike(s.(polls := s.polls - answered), t.(polls := t.polls - answered), id, generation, answer);
    } else {
      OldAnswerIsTakenOff(s, id, generation, answer);
      OldAnswerIsTakenOff(t, id, generation, answer);
    }
  }

  /** A load that is kept with its page, and one that is dropped. */
  lemma KeptLoadKeepsAlike(s: State, t: State, l: nat, load: Load)
    requires Alike(s, t)
    ensures Alike(s.(loads := s.loads[l := load]), t.(loads := t.loads[l := load]))
    ensures Alike(s.(loads := s.loads - {l}), t.(loads := t.loads - {l}))
  {
  }

  lemma {:induction false} PageKeepsAlike(s: State, t: State, l: nat, page: Page)
    requires Alike(s, t)
    ensures Alike(Step(s, PageArrives(l, page)), Step(t, PageArrives(l, page)))
  {
    hide EnsureAll, MergeLists, LastPageFirst, PagesWanted;
    if l in s.loads && s.loads[l].generation >= s.generation {
      var load := WithPage(s.loads[l], page);
      KeptLoadKeepsAlike(s, t, l, load);
      if Completes(s, l, page) {
        var merged := MergedByPage(s, l, page);
        EnsureAllKeepsAlike(s.(loads := s.loads - {l}, operations := merged), t.(loads := t.loads - {l}, operations := merged), merged);
      }
    }
  }

  lemma StepKeepsAlike(s: State, t: State, e: Event)
    requires Alike(s, t)
    ensures Alike(Step(s, e), Step(t, e))
  {
    match e
    case PollAnswers(id, generation, answer) =>
      hide Step, Alike;
      AnswerKeepsAlike(s, t, id, generation, answer);
    case PageArrives(l, page) =>
      hide Step, Alike;
      PageKeepsAlike(s, t, l, page);
    case ResumePolling =>
      EnsureAllKeepsAlike(s, t, s.operations);
    case TimerFires(timer) => FiringKeepsAlike(s, t, timer);
    case Acknowledge(operation) => AcknowledgingKeepsAlike(s, t, operation);
    case LoadSession(session) => OpeningKeepsAlike(s, t, session);
    case _ =>
      hide EnsureAll, Answered;
  }

  lemma AskingKeepsAlike(s: State, t: State, id: string, generation: nat)
    requires Alike(s, t)
    ensures Alike(BeginPoll(s, id, generation), BeginPoll(t, id, generation))
  {
    var u, v := BeginPoll(s, id, generation), BeginPoll(t, id, generation);
    forall i, g | g >= s.generation ensures u.polls[(i, g)] == v.polls[(i, g)] {
      assert s.polls[(i, g)] == t.polls[(i, g)];
    }
  }

  lemma FiringKeepsAlike(s: State, t: State, timer: nat)
    requires Alike(s, t)
    ensures Alike(Step(s, TimerFires(timer)), Step(t, TimerFires(timer)))
  {
    hide BeginPoll;
    if timer in s.armed {
      var (id, generation) := s.armed[timer];
      AskingKeepsAlike(s.(armed := s.armed - {timer}, timers := s.timers - {id}),
        t.(armed := s.armed - {timer}, timers := s.timers - {id}), id, generation);
    }
  }

  lemma AcknowledgingKeepsAlike(s: State, t: State, operation: Operation)
    requires Alike(s, t)
    ensures Alike(Step(s, Acknowledge(operation)), Step(t, Acknowledge(operation)))
  {
    hide BeginPoll, Upsert;
    var operations := Upsert(s.operations, operation);
    AskingKeepsAlike(s.(operations := operations), t.(operations := operations), operation.id, s.generation);
  }

  lemma RequestingKeepsAlike(s: State, t: State, session: int)
    requires Alike(s, t)
    ensures Alike(Requesting(s, session), Requesting(t, session))
  {
  }

  lemma SwitchingKeepsAlike(s: State, t: State, session: int)
    requires Alike(s, t)
    ensures Alike(Switched(s, session), Switched(t, session))
  {
  }

  lemma OpeningKeepsAlike(s: State, t: State, session: int)
    requires Alike(s, t)
    ensures Alike(Step(s, LoadSession(session)), Step(t, LoadSession(session)))
  {
    hide Alike, Switched, Requesting;
    SwitchingKeepsAlike(s, t, session);
    RequestingKeepsAlike(Switched(s, session), Switched(t, session), session);
  }

  lemma {:induction false} AlikeForGood(s: State, t: State, events: seq<Event>)
    requires Alike(s, t)
    ensures Alike(Continue(s, events), Continue(t, events))
  {
    if events != [] {
      AlikeForGood(s, t, events[..|events| - 1]);
      StepKeepsAlike(Continue(s, events[..|events| - 1]), Continue(t, events[..|events| - 1]), events[|events| - 1]);
    }
  }

  /** A client that has just opened the session, with nothing behind it but its generation and its timer numbers. */
  function Opened(session: int, generation: nat, next: nat): State {
    State([], map[], generation, Some(session), map[], multiset{}, map[next := Load(session, generation, [], 1)], next + 1)
  }

  function OpenedAfter(events: seq<Event>, session: int): State {
    Opened(session, Run(events).generation + 1, Run(events).next)
  }

  /**
   * In every run: after a switch of session the client is for good the one that has just opened the
   * session. Whatever was stored, armed or requested before never shows in list, timers or polls,
   * whichever old answers and pages come in later.
   */
  lemma SwitchStartsAfresh(events: seq<Event>, session: int, after: seq<Event>)
    requires Run(events).session != Some(session)
    ensures Alike(Run(events + [LoadSession(session)] + after), Continue(OpenedAfter(events, session), after))
  {
    hide Alike, Continue, TimersMatch, RequestsKnown;
    TimersAlwaysMatch(events);
    OpeningStartsAfresh(Run(events), session);
    RunThenContinue(events + [LoadSession(session)], after);
    AlikeForGood(Run(events + [LoadSession(session)]), OpenedAfter(events, session), after);
  }

  lemma OpeningStartsAfresh(s: State, session: int)
    requires TimersMatch(s) && RequestsKnown(s) && s.session != Some(session)
    ensures Alike(Step(s, LoadSession(session)), Opened(session, s.generation + 1, s.next))
  {
    ClearAllDisarms(s.(generation := s.generation + 1, session := Some(session)));
  }

  /** Is the event not an answer to a request, or the firing of a timer, that the client does not know? */
  predicate Concerns(s: State, e: Event) {
    match e
    case TimerFires(timer) => timer in s.armed
    case PollAnswers(id, generation, _) => (id, generation) in s.polls
    case PageArrives(l, _) => l in s.loads
    case LoadFails(l) => l in s.loads
    case _ => true
  }

  /** The rest of a run without what the client does not know. */
  function Concerning(s: State, events: seq<Event>): seq<Event> {
    if events == [] then []
    else
      var before, e := events[..|events| - 1], events[|events| - 1];
      if Concerns(Continue(s, before), e) then Concerning(s, before) + [e] else Concerning(s, before)
  }

  lemma {:induction false} OnlyWhatConcernsCounts(s: State, events: seq<Event>)
    ensures Continue(s, Concerning(s, events)) == Continue(s, events)
  {
    if events != [] {
      hide Step;
      var before, e := events[..|events| - 1], events[|events| - 1];
      OnlyWhatConcernsCounts(s, before);
      if Concerns(Continue(s, before), e) {
        assert (Concerning(s, before) + [e])[..|Concerning(s, before) + [e]| - 1] == Concerning(s, before);
      } else {
        UnknownIsIgnored(Continue(s, before), e);
      }
    }
  }

  lemma UnknownIsIgnored(s: State, e: Event)
    requires !Concerns(s, e)
    ensures Step(s, e) == s
  {
    if e.LoadFails? {
      assert s.loads - {e.load} == s.loads;
    }
  }

  /**
   * Erasing from what follows a switch every answer, page and timer that the newly opened client
   * has not itself started leaves list, timers and live requests as they are.
   */
  lemma ErasingOldAnswersChangesNothing(events: seq<Event>, session: int, after: seq<Event>)
    requires Run(events).session != Some(session)
    ensures Alike(Run(events + [LoadSession(session)] + after),
                  Run(events + [LoadSession(session)] + Concerning(OpenedAfter(events, session), after)))
  {
    hide Run, Continue, Concerning;
    var start := OpenedAfter(events, session);
    SwitchStartsAfresh(events, session, after);
    SwitchStartsAfresh(events, session, Concerning(start, after));
    OnlyWhatConcernsCounts(start, after);
  }

  /** In every run: after a disposal what was requested before it has no effect any more. */
  lemma DisposalForgetsRequests(events: seq<Event>, after: seq<Event>)
    ensures Alike(Run(events + [Dispose] + after), Continue(Forget(Run(events + [Dispose])), after))
  {
    hide Alike, Continue, RequestsKnown;
    TimersAlwaysMatch(events);
    DisposalForgets(Run(events));
    RunThenContinue(events + [Dispose], after);
    AlikeForGood(Run(events + [Dispose]), Forget(Run(events + [Dispose])), after);
  }

  lemma DisposalForgets(s: State)
    requires RequestsKnown(s)
    ensures Alike(Step(s, Dispose), Forget(Step(s, Dispose)))
  {
  }

  lemma {:induction false} RunThenContinue(events: seq<Event>, after: seq<Event>)
    ensures Run(events + after) == Continue(Run(events), after)
  {
    if after == [] {
      assert events + after == events;
    } else {
      var n := |after| - 1;
      RunThenContinue(events, after[..n]);
      assert (events + after)[..|events + after| - 1] == events + after[..n];
    }
  }

  // ----- Coverage -----

  ghost predicate Covered(s: State, id: string) {
    id in s.timers || (id, s.generation) in s.polls
  }

  /** Every stored operation that is not terminal has a timer or a poll of the current generation. */
  ghost predicate AllCovered(s: State) {
    forall i :: 0 <= i < |s.operations| && !s.operations[i].terminal ==> Covered(s, s.operations[i].id)
  }

  /** The first stored operation with the id of the answer takes it. */
  predicate Takes(s: State, i: int, operation: Operation) {
    i == IndexOf(s.operations, operation.id) && 0 <= i < |s.operations| && !Keeps(s.operations[i], operation)
  }

  /**
   * What an answer of the current generation must be like. A terminal one ends the polling of `id`:
   * another poll is in flight, or the answer takes the place of every stored operation with that id
   * that is not terminal, which is at most one. One that is not terminal and about another
   * operation must not store that one unpolled.
   */
  ghost predicate Lands(s: State, id: string, operation: Operation) {
    if operation.terminal then
      || s.polls[(id, s.generation)] > 1
      || forall i :: 0 <= i < |s.operations| && s.operations[i].id == id && !s.operations[i].terminal ==> Takes(s, i, operation)
    else
      || operation.id == id
      || Covered(s, operation.id)
      || (IndexOf(s.operations, operation.id) >= 0 && !Takes(s, IndexOf(s.operations, operation.id), operation))
  }

  /** Is the last operation of the list with this id terminal? */
  predicate EndsTerminal(list: seq<Operation>, id: string) {
    list != [] &&
    var last := list[|list| - 1];
    if last.id == id then last.terminal else EndsTerminal(list[..|list| - 1], id)
  }

  /** Polling a list in order leaves nothing out: no id is last seen terminal after it was seen running. */
  ghost predicate Tidy(s: State, list: seq<Operation>) {
    forall i :: 0 <= i < |list| && !list[i].terminal ==>
      !EndsTerminal(list, list[i].id) || (list[i].id, s.generation) in s.polls
  }

  predicate Completes(s: State, l: nat, page: Page) {
    l in s.loads && var load := WithPage(s.loads[l], page); IsCurrent(s, load) && |load.pages| >= load.wanted
  }

  function MergedByPage(s: State, l: nat, page: Page): seq<Operation>
    requires l in s.loads
  {
    MergeLists(s.operations, LastPageFirst(WithPage(s.loads[l], page).pages))
  }

  /** The events that keep the coverage, exactly. */
  ghost predicate Sound(s: State, e: Event) {
    match e
    case PollAnswers(id, generation, Some(operation)) =>
      (id, generation) in s.polls && generation == s.generation ==> Lands(s, id, operation)
    case PageArrives(l, page) => Completes(s, l, page) ==> Tidy(s, MergedByPage(s, l, page))
    case ResumePolling => Tidy(s, s.operations)
    case _ => true
  }

  /** Does the client poll what it stores? Not from a disposal until the next resume, load or switch. */
  function Tended(events: seq<Event>): bool {
    if events == [] then true
    else
      var s, e := Run(events[..|events| - 1]), events[|events| - 1];
      match e
      case Dispose => false
      case ResumePolling => true
      case LoadSession(session) => Tended(events[..|events| - 1]) || s.session != Some(session)
      case PageArrives(l, page) =>
        || Tended(events[..|events| - 1])
        || Completes(s, l, page)
      case _ => Tended(events[..|events| - 1])
  }

  ghost predicate SoundRun(events: seq<Event>) {
    forall n :: 0 <= n < |events| ==> Sound(Run(events[..n]), events[n])
  }

  /** After polling a list in order, an id has a timer unless it was last seen terminal. */
  lemma {:induction false} EnsureAllTimers(s: State, list: seq<Operation>, id: string)
    ensures EnsureAll(s, list).generation == s.generation
    ensures id in EnsureAll(s, list).timers <==>
      !EndsTerminal(list, id) && (id in s.timers || exists i :: 0 <= i < |list| && list[i].id == id)
  {
    if list != [] {
      var n := |list| - 1;
      EnsureAllTimers(s, list[..n], id);
      if i :| 0 <= i < |list| && list[i].id == id && list[n].id != id {
        assert list[..n][i].id == id;
      }
    }
  }

  /** Exactly when polling a list in order covers it, whatever was polled before. */
  lemma EnsureAllCoversIff(s: State)
    requires TimersMatch(s)
    ensures EnsureAll(s, s.operations).operations == s.operations
    ensures AllCovered(EnsureAll(s, s.operations)) <==> Tidy(s, s.operations)
  {
    hide TimersMatch, EnsureAll;
    var list, t := s.operations, EnsureAll(s, s.operations);
    EnsureAllMatches(s, list);
    forall i | 0 <= i < |list| ensures list[i].id in t.timers <==> !EndsTerminal(list, list[i].id) {
      EnsureAllTimers(s, list, list[i].id);
    }
  }

  /** Exactly when an answer of the current generation keeps the coverage. */
  lemma AnswerKeepsCoverageIff(s: State, id: string, operation: Operation)
    requires AllCovered(s) && (id, s.generation) in s.polls
    ensures AllCovered(Step(s, PollAnswers(id, s.generation, Some(operation)))) <==> Lands(s, id, operation)
  {
    hide Keeps;
    var t := Step(s, PollAnswers(id, s.generation, Some(operation)));
    var at := IndexOf(s.operations, operation.id);
    UpsertKeepsOthers(s.operations, operation);
    assert t.operations == Upsert(s.operations, operation);
    assert t.polls == s.polls - multiset{(id, s.generation)};
    if operation.terminal {
      TerminalAnswerCovers(s, t, id, operation);
    } else {
      OpenAnswerCovers(s, t, id, operation);
    }
  }

  lemma TerminalAnswerCovers(s: State, t: State, id: string, operation: Operation)
    requires AllCovered(s) && operation.terminal && t.generation == s.generation
    requires t.operations == Upsert(s.operations, operation) && (id, s.generation) in s.polls
    requires t.polls == s.polls - multiset{(id, s.generation)} && t.timers == s.timers - {id}
    ensures AllCovered(t) <==> Lands(s, id, operation)
  {
    hide Keeps;
    forall i | 0 <= i < |s.operations| && s.operations[i].id == id && !s.operations[i].terminal && !Takes(s, i, operation)
      ensures t.operations[i] == s.operations[i]
    {
    }
  }

  lemma OpenAnswerCovers(s: State, t: State, id: string, operation: Operation)
    requires AllCovered(s) && !operation.terminal && t.generation == s.generation
    requires t.operations == Upsert(s.operations, operation) && (id, s.generation) in s.polls
    requires t.polls == s.polls - multiset{(id, s.generation)} && t.timers.Keys == s.timers.Keys + {id}
    ensures AllCovered(t) <==> Lands(s, id, operation)
  {
    hide Keeps;
    var at := IndexOf(s.operations, operation.id);
    if at < 0 || Takes(s, at, operation) {
      var i := if at < 0 then |s.operations| else at;
      assert t.operations[i] == operation;
    }
  }

  /** The operations an answer is not about are covered as before. */
  lemma OthersStayCovered(s: State, t: State, operation: Operation)
    requires AllCovered(s) && t.generation == s.generation
    requires t.operations == Upsert(s.operations, operation)
    requires forall id :: id != operation.id && Covered(s, id) ==> Covered(t, id)
    ensures forall i :: 0 <= i < |t.operations| && !t.operations[i].terminal && t.operations[i].id != operation.id ==>
      Covered(t, t.operations[i].id)
  {
    UpsertKeepsOthers(s.operations, operation);
  }

  /** Whatever was polled before, the last page of a current load covers everything exactly if what it merges is tidy. */
  lemma LoadCoversIff(s: State, l: nat, page: Page)
    requires TimersMatch(s) && Completes(s, l, page)
    ensures AllCovered(Step(s, PageArrives(l, page))) <==> Tidy(s, MergedByPage(s, l, page))
  {
    hide EnsureAll, MergeLists;
    EnsureAllCoversIff(s.(loads := s.loads - {l}, operations := MergedByPage(s, l, page)));
  }

  lemma FiringKeepsCoverage(s: State, timer: nat)
    requires TimersMatch(s) && AllCovered(s)
    ensures AllCovered(Step(s, TimerFires(timer)))
  {
  }

  lemma LoadEventsKeepCoverage(s: State, e: Event)
    requires AllCovered(s)
    requires e.LoadSession? || e.LoadFails? || (e.PageArrives? && !Completes(s, e.load, e.page))
    ensures AllCovered(Step(s, e))
  {
    hide EnsureAll, MergeLists;
  }

  /** No answer, or one of an older generation. */
  lemma LostAnswerKeepsCoverage(s: State, id: string, generation: nat, answer: Option<Operation>)
    requires AllCovered(s)
    requires answer.None? || generation != s.generation || (id, generation) !in s.polls
    ensures AllCovered(Step(s, PollAnswers(id, generation, answer)))
  {
  }

  /** Apart from disposal, an event keeps the coverage if and only if it is sound. */
  lemma CoverageIsKeptIff(s: State, e: Event)
    requires TimersMatch(s) && AllCovered(s) && !e.Dispose?
    ensures AllCovered(Step(s, e)) <==> Sound(s, e)
  {
    match e
    case Acknowledge(operation) => OthersStayCovered(s, Step(s, e), operation);
    case PollAnswers(id, generation, answer) =>
      hide Answered, Lands, AllCovered;
      if (id, generation) in s.polls && generation == s.generation && answer.Some? {
        AnswerKeepsCoverageIff(s, id, answer.value);
      } else {
        LostAnswerKeepsCoverage(s, id, generation, answer);
      }
    case PageArrives(l, page) =>
      hide Step, AllCovered, Tidy, MergeLists;
      if Completes(s, l, page) {
        LoadCoversIff(s, l, page);
      } else {
        LoadEventsKeepCoverage(s, e);
      }
    case ResumePolling =>
      hide AllCovered, Tidy, EnsureAll;
      EnsureAllCoversIff(s);
    case TimerFires(timer) =>
      hide Step, AllCovered;
      FiringKeepsCoverage(s, timer);
    case _ =>
      hide Step, AllCovered;
      LoadEventsKeepCoverage(s, e);
  }

  /**
   * In every sound run, whenever the client is not disposed, every stored operation that is not
   * terminal has a timer or a poll of the current generation.
   */
  lemma {:induction false} PollingCoversOperations(events: seq<Event>)
    requires SoundRun(events) && Tended(events)
    ensures AllCovered(Run(events))
  {
    hide Sound, TimersMatch, Step;
    if events != [] {
      var n := |events| - 1;
      var before, e := events[..n], events[n];
      assert forall k :: 0 <= k < n ==> before[..k] == events[..k];
      TimersAlwaysMatch(before);
      if Tended(before) {
        PollingCoversOperations(before);
        CoverageIsKeptIff(Run(before), e);
      } else {
        RecoveryCovers(Run(before), e);
      }
    }
  }

  /** What ends an untended time covers everything. */
  lemma RecoveryCovers(s: State, e: Event)
    requires TimersMatch(s) && Sound(s, e)
    requires match e
      case ResumePolling => true
      case LoadSession(session) => s.session != Some(session)
      case PageArrives(l, page) => Completes(s, l, page)
      case _ => false
    ensures AllCovered(Step(s, e))
  {
    hide EnsureAll, MergeLists, Tidy;
    match e
    case ResumePolling => EnsureAllCoversIff(s);
    case PageArrives(l, page) => LoadCoversIff(s, l, page);
    case _ =>
  }

  // ----- When the server is asked -----

  /** In every run: an acknowledged operation, and one whose timer fires, is asked for at once, in the current generation. */
  lemma AskedAtOnce(events: seq<Event>, operation: Operation, timer: nat)
    ensures var s, t := Run(events), Step(Run(events), Acknowledge(operation));
      && t.polls == s.polls + multiset{(operation.id, s.generation)} && t == s.(operations := t.operations, polls := t.polls)
      && t.operations == Upsert(s.operations, operation)
    ensures timer in Run(events).armed ==>
      var s, t := Run(events), Step(Run(events), TimerFires(timer));
      var id := s.armed[timer].0;
      && t.polls == s.polls + multiset{(id, s.generation)} && id !in t.timers && timer !in t.armed
      && t == s.(polls := t.polls, timers := t.timers, armed := t.armed)
  {
    TimersAlwaysMatch(events);
  }

  // ----- What a load stores -----

  /** As many pages as the first one announces, by either count, and one at least. */
  predicate Enough(first: Page, n: int) {
    n >= 1 && n >= first.totalPages && (first.pageSize > 0 ==> first.total <= n * first.pageSize)
  }

  lemma Times(a: int, b: int, c: nat)
    requires a <= b
    ensures a * c <= b * c
  {
  }

  lemma RoundedUp(total: nat, size: nat, n: int)
    requires size > 0
    ensures var up := (total + size - 1) / size; total <= up * size && (total <= n * size ==> up <= n)
  {
    var up := (total + size - 1) / size;
    assert total + size - 1 == up * size + (total + size - 1) % size;
    if n < up {
      Times(n, up - 1, size);
      assert (up - 1) * size == up * size - size;
    }
  }

  lemma PagesWantedIsLeast(first: Page, n: int)
    ensures Enough(first, PagesWanted(first))
    ensures Enough(first, n) ==> PagesWanted(first) <= n
  {
    if first.pageSize > 0 {
      var up := (first.total + first.pageSize - 1) / first.pageSize;
      RoundedUp(first.total, first.pageSize, n);
      Times(up, PagesWanted(first), first.pageSize);
    }
  }

  /** The pages that have arrived for a load under way. */
  function Arrived(events: seq<Event>, l: nat): seq<Page> {
    if events == [] then []
    else
      var before, e := events[..|events| - 1], events[|events| - 1];
      if e.PageArrives? && e.load == l && l in Run(before).loads then Arrived(before, l) + [e.page] else Arrived(before, l)
  }

  function ItemsOf(pages: seq<Page>): (items: seq<seq<Operation>>)
    ensures |items| == |pages| && forall k :: 0 <= k < |pages| ==> items[k] == pages[k].items
  {
    seq(|pages|, k requires 0 <= k < |pages| => pages[k].items)
  }

  /** The load has kept the pages that arrived, and they are fewer than the first one announced. */
  ghost predicate LoadFollows(s: State, l: nat, arrived: seq<Page>) {
    if l in s.loads then
      && s.loads[l].pages == ItemsOf(arrived)
      && (arrived == [] || (s.loads[l].wanted == PagesWanted(arrived[0]) && |arrived| < PagesWanted(arrived[0])))
    else l >= s.next ==> arrived == []
  }

  /** Handles are given once: none is in use that has not been given. */
  ghost predicate HandlesKnown(s: State) {
    forall l :: l in s.loads ==> l < s.next
  }

  lemma {:induction false} EnsureAllTakesNumbers(s: State, list: seq<Operation>)
    ensures EnsureAll(s, list).next >= s.next && EnsureAll(s, list).loads == s.loads
  {
    if list != [] {
      EnsureAllTakesNumbers(s, list[..|list| - 1]);
    }
  }

  lemma PageKeepsLoads(s: State, k: nat, page: Page, l: nat, arrived: seq<Page>)
    requires HandlesKnown(s) && LoadFollows(s, l, arrived)
    ensures HandlesKnown(Step(s, PageArrives(k, page)))
    ensures LoadFollows(Step(s, PageArrives(k, page)), l, if k == l && l in s.loads then arrived + [page] else arrived)
  {
    hide EnsureAll, MergeLists, PagesWanted, LastPageFirst;
    if k in s.loads {
      var load := WithPage(s.loads[k], page);
      var merged := MergeLists(s.operations, LastPageFirst(load.pages));
      EnsureAllTakesNumbers(s.(loads := s.loads - {k}, operations := merged), merged);
    }
  }

  lemma {:induction false} StepKeepsLoads(s: State, e: Event, l: nat, arrived: seq<Page>)
    requires HandlesKnown(s) && LoadFollows(s, l, arrived)
    ensures HandlesKnown(Step(s, e))
    ensures LoadFollows(Step(s, e), l,
      if e.PageArrives? && e.load == l && l in s.loads then arrived + [e.page] else arrived)
  {
    hide EnsureAll, MergeLists, Upsert, PagesWanted;
    match e
    case PageArrives(k, page) =>
      hide Step, LoadFollows;
      PageKeepsLoads(s, k, page, l, arrived);
    case ResumePolling => EnsureAllTakesNumbers(s, s.operations);
    case _ =>
  }

  lemma {:induction false} LoadsFollow(events: seq<Event>, l: nat)
    ensures HandlesKnown(Run(events)) && LoadFollows(Run(events), l, Arrived(events, l))
  {
    if events != [] {
      LoadsFollow(events[..|events| - 1], l);
      StepKeepsLoads(Run(events[..|events| - 1]), events[|events| - 1], l, Arrived(events[..|events| - 1], l));
    }
  }

  /** Where page `k` begins in the list: behind all later pages. */
  function Behind(pages: seq<seq<Operation>>, k: nat): nat
    requires k <= |pages|
    decreases |pages| - k
  {
    if k == |pages| then 0 else if k == |pages| - 1 then 0 else |pages[k + 1]| + Behind(pages, k + 1)
  }

  lemma {:induction false} BehindGrows(pages: seq<seq<Operation>>, k: nat)
    requires k < |pages| - 1
    ensures Behind(pages, k) == |pages[|pages| - 1]| + Behind(pages[..|pages| - 1], k)
    decreases |pages| - k
  {
    if k < |pages| - 2 {
      BehindGrows(pages, k + 1);
    }
  }

  /** The last page comes first, each page in its own order, and nothing else is in the list. */
  lemma {:induction false} PageIsAt(pages: seq<seq<Operation>>, k: nat)
    requires k < |pages|
    ensures var list, at := LastPageFirst(pages), Behind(pages, k);
      at + |pages[k]| <= |list| && list[at..at + |pages[k]|] == pages[k] && (k == 0 ==> at + |pages[k]| == |list|)
  {
    var n := |pages| - 1;
    if k < n {
      BehindGrows(pages, k);
      PageIsAt(pages[..n], k);
      var rest, at := LastPageFirst(pages[..n]), Behind(pages[..n], k);
      assert (pages[n] + rest)[|pages[n]| + at..|pages[n]| + at + |pages[k]|] == rest[at..at + |pages[k]|];
    } else if n == 0 {
      assert LastPageFirst(pages[..0]) == [];
    }
  }

  /**
   * In every run: a load of the session shown completes with a page if and only if that is the last
   * of the pages the first one announced. What is stored then is the old list merged with all of
   * them, and every one of them is polled; before, the list is as it was.
   */
  lemma {:induction false} LoadAsksForEveryPage(events: seq<Event>, l: nat, page: Page)
    requires l in Run(events).loads && IsCurrent(Run(events), Run(events).loads[l])
    ensures var s, pages := Run(events), Arrived(events, l) + [page];
      var t := Step(s, PageArrives(l, page));
      && |pages| <= PagesWanted(pages[0])
      && (|pages| == PagesWanted(pages[0]) ==>
            l !in t.loads && t.operations == MergeLists(s.operations, LastPageFirst(ItemsOf(pages))))
      && (|pages| < PagesWanted(pages[0]) ==> l in t.loads && t == s.(loads := t.loads))
  {
    LoadsFollow(events, l);
    PagesWantedIsLeast((Arrived(events, l) + [page])[0], 1);
    CompletesWithLast(Run(events), l, page, Arrived(events, l));
  }

  lemma CompletesWithLast(s: State, l: nat, page: Page, arrived: seq<Page>)
    requires l in s.loads && IsCurrent(s, s.loads[l]) && LoadFollows(s, l, arrived) && PagesWanted((arrived + [page])[0]) >= 1
    ensures var pages, t := arrived + [page], Step(s, PageArrives(l, page));
      && |pages| <= PagesWanted(pages[0])
      && (|pages| == PagesWanted(pages[0]) ==>
            l !in t.loads && t.operations == MergeLists(s.operations, LastPageFirst(ItemsOf(pages))))
      && (|pages| < PagesWanted(pages[0]) ==> l in t.loads && t == s.(loads := t.loads))
  {
    hide EnsureAll, MergeLists, PagesWanted, LastPageFirst;
    var load, pages := WithPage(s.loads[l], page), arrived + [page];
    assert load.pages == ItemsOf(pages);
    var merged := MergeLists(s.operations, LastPageFirst(load.pages));
    EnsureAllIsFramed(s.(loads := s.loads - {l}, operations := merged), merged, s.polls, s.loads);
  }

  // ----- Lists without duplicates -----

  ghost predicate UniquePages(s: State, e: Event) {
    e.PageArrives? && e.load in s.loads ==> UniqueIds(LastPageFirst(WithPage(s.loads[e.load], e.page).pages))
  }

  /** If the pages of a load never repeat an operation, the list never does. */
  lemma {:induction false} ListsStayUnique(events: seq<Event>)
    requires forall n :: 0 <= n < |events| ==> UniquePages(Run(events[..n]), events[n])
    ensures UniqueIds(Run(events).operations)
  {
    if events != [] {
      var n := |events| - 1;
      assert forall k :: 0 <= k < n ==> events[..n][..k] == events[..k];
      ListsStayUnique(events[..n]);
      TimersAlwaysMatch(events[..n]);
      StepKeepsUnique(Run(events[..n]), events[n]);
    }
  }

  lemma {:induction false} StepKeepsUnique(s: State, e: Event)
    requires UniqueIds(s.operations) && TimersMatch(s) && UniquePages(s, e)
    ensures UniqueIds(Step(s, e).operations)
  {
    hide EnsureAll, MergeLists;
    match e
    case Acknowledge(operation) => UpsertKeepsOthers(s.operations, operation);
    case PollAnswers(id, generation, answer) =>
      if answer.Some? {
        UpsertKeepsOthers(s.operations, answer.value);
      }
    case PageArrives(l, page) =>
      if l in s.loads {
        MergeIsKeyUnion(s.operations, LastPageFirst(WithPage(s.loads[l], page).pages));
        EnsureAllMatches(s.(loads := s.loads - {l}, operations := MergedByPage(s, l, page)), MergedByPage(s, l, page));
      }
    case ResumePolling => EnsureAllMatches(s, s.operations);
    case _ =>
  }

  /** Then loading and resuming always cover everything; only answers can stop the polling. */
  lemma UniqueListsAreTidy(s: State, list: seq<Operation>)
    requires UniqueIds(list)
    ensures Tidy(s, list)
  {
    forall i | 0 <= i < |list| && !list[i].terminal ensures !EndsTerminal(list, list[i].id) {
      UniqueEndsWith(list, i);
    }
  }

  lemma {:induction false} UniqueEndsWith(list: seq<Operation>, i: nat)
    requires UniqueIds(list) && i < |list|
    ensures EndsTerminal(list, list[i].id) == list[i].terminal
  {
    if i < |list| - 1 {
      UniqueEndsWith(list[..|list| - 1], i);
    }
  }

  // ----- Runs that stop polling -----

  lemma FirstPageStartsPolling(stored: Operation)
    requires !stored.terminal
    ensures Step(State([], map[], 1, Some(7), map[], multiset{}, map[0 := Load(7, 1, [], 1)], 1),
                 PageArrives(0, Page([stored], 1, 1, 100)))
      == State([stored], map[stored.id := 1], 1, Some(7), map[1 := (stored.id, 1)], multiset{}, map[], 2)
  {
    var s, page := State([], map[], 1, Some(7), map[], multiset{}, map[0 := Load(7, 1, [], 1)], 1), Page([stored], 1, 1, 100);
    var load := WithPage(s.loads[0], page);
    assert LastPageFirst([[stored]]) == [stored];
    assert load == Load(7, 1, [[stored]], 1);
    assert MergeLists([], [stored]) == [stored];
    assert s.loads - {0} == map[];
    assert EnsureAll(s.(operations := [stored], loads := map[]), [stored]) ==
      EnsurePolling(s.(operations := [stored], loads := map[]), stored);
  }

  lemma FiringAsksTheServer(stored: Operation, older: Operation)
    requires older.id == stored.id && older.terminal && Keeps(stored, older)
    ensures var polling := State([stored], map[stored.id := 1], 1, Some(7), map[1 := (stored.id, 1)], multiset{}, map[], 2);
      Step(Step(polling, TimerFires(1)), PollAnswers(stored.id, 1, Some(older)))
        == State([stored], map[], 1, Some(7), map[], multiset{}, map[], 2)
  {
    var polling := State([stored], map[stored.id := 1], 1, Some(7), map[1 := (stored.id, 1)], multiset{}, map[], 2);
    assert polling.armed - {1} == map[] && polling.timers - {stored.id} == map[];
    assert multiset{} + multiset{(stored.id, 1)} == multiset{(stored.id, 1)};
    assert Upsert([stored], older) == [stored];
  }

  lemma {:induction false} TendedUntilDisposed(events: seq<Event>)
    requires forall i :: 0 <= i < |events| ==> !events[i].Dispose?
    ensures Tended(events)
  {
    if events != [] {
      TendedUntilDisposed(events[..|events| - 1]);
    }
  }

  lemma RunOfFour(a: Event, b: Event, c: Event, d: Event)
    ensures Run([a, b, c, d]) == Step(Step(Step(Step(INIT, a), b), c), d)
  {
    assert [a, b, c, d][..3] == [a, b, c] && [a, b, c][..2] == [a, b] && [a, b][..1] == [a] && [a][..0] == [];
    assert Run([a]) == Step(INIT, a);
    assert Run([a, b]) == Step(Run([a]), b);
    assert Run([a, b, c]) == Step(Run([a, b]), c);
  }

  /** A terminal answer older than the stored projection: the operation is stored, but no longer polled. */
  lemma OldTerminalAnswerStopsPolling(id: string)
    ensures var stored := Operation(id, false, false, 2, None, "");
      var older := Operation(id, true, false, 1, None, "");
      var events := [LoadSession(7), PageArrives(0, Page([stored], 1, 1, 100)), TimerFires(1), PollAnswers(id, 1, Some(older))];
      && Tended(events)
      && Run(events) == State([stored], map[], 1, Some(7), map[], multiset{}, map[], 2)
  {
    var stored := Operation(id, false, false, 2, None, "");
    var older := Operation(id, true, false, 1, None, "");
    var a, b, c, d := LoadSession(7), PageArrives(0, Page([stored], 1, 1, 100)), TimerFires(1), PollAnswers(id, 1, Some(older));
    TendedUntilDisposed([a, b, c, d]);
    RunOfFour(a, b, c, d);
    assert Step(INIT, a) == State([], map[], 1, Some(7), map[], multiset{}, map[0 := Load(7, 1, [], 1)], 1);
    FirstPageStartsPolling(stored);
    FiringAsksTheServer(stored, older);
  }

  lemma RepeatedPageIsStoredTwice(x: Operation)
    requires !x.terminal
    ensures var s := State([], map[], 1, Some(7), map[], multiset{}, map[0 := Load(7, 1, [], 1)], 1);
      Step(Step(s, PageArrives(0, Page([x], 2, 2, 1))), PageArrives(0, Page([x], 2, 2, 1)))
        == State([x, x], map[x.id := 1], 1, Some(7), map[1 := (x.id, 1)], multiset{}, map[], 2)
  {
    var s, page := State([], map[], 1, Some(7), map[], multiset{}, map[0 := Load(7, 1, [], 1)], 1), Page([x], 2, 2, 1);
    var half := s.(loads := map[0 := Load(7, 1, [[x]], 2)]);
    assert WithPage(s.loads[0], page) == Load(7, 1, [[x]], 2);
    assert s.loads[0 := Load(7, 1, [[x]], 2)] == half.loads;
    assert Step(s, PageArrives(0, page)) == half;
    var load := WithPage(half.loads[0], page);
    assert load == Load(7, 1, [[x], [x]], 2);
    assert [[x], [x]][..1] == [[x]] && LastPageFirst([[x]]) == [x];
    assert LastPageFirst([[x], [x]]) == [x, x];
    assert MergeLists([], [x, x]) == [x, x];
    assert half.loads - {0} == map[];
    var merged := s.(operations := [x, x], loads := map[]);
    assert [x, x][..1] == [x] && [x][..0] == [];
    var once := EnsurePolling(merged, x);
    assert EnsureAll(merged, [x]) == once && EnsureAll(merged, [x, x]) == EnsurePolling(once, x) == once;
  }

  lemma AnswerReachesOneCopy(x: Operation, done: Operation)
    requires done.id == x.id && !x.terminal && done.terminal && !Keeps(x, done)
    ensures var s := State([x, x], map[x.id := 1], 1, Some(7), map[1 := (x.id, 1)], multiset{}, map[], 2);
      Step(Step(s, TimerFires(1)), PollAnswers(x.id, 1, Some(done)))
        == State([done, x], map[], 1, Some(7), map[], multiset{}, map[], 2)
  {
    var s := State([x, x], map[x.id := 1], 1, Some(7), map[1 := (x.id, 1)], multiset{}, map[], 2);
    assert s.armed - {1} == map[] && s.timers - {x.id} == map[];
    assert multiset{} + multiset{(x.id, 1)} == multiset{(x.id, 1)};
    assert Upsert([x, x], done) == [done, x];
  }

  /**
   * An operation created between two page requests shifts the pages, and the same operation comes
   * in twice. Its terminal answer replaces the first copy and ends the polling of both.
   */
  lemma PageShiftStopsPolling(id: string)
    ensures var x, done := Operation(id, false, false, 1, None, ""), Operation(id, true, false, 2, None, "");
      var page := PageArrives(0, Page([x], 2, 2, 1));
      var events := [LoadSession(7), page, page, TimerFires(1), PollAnswers(id, 1, Some(done))];
      && Tended(events) && !AllCovered(Run(events))
      && Run(events) == State([done, x], map[], 1, Some(7), map[], multiset{}, map[], 2)
  {
    var x, done := Operation(id, false, false, 1, None, ""), Operation(id, true, false, 2, None, "");
    var a, b, c, d := LoadSession(7), PageArrives(0, Page([x], 2, 2, 1)), TimerFires(1), PollAnswers(id, 1, Some(done));
    TendedUntilDisposed([a, b, b, c, d]);
    RunOfFour(a, b, b, c);
    assert [a, b, b, c, d][..4] == [a, b, b, c];
    assert Step(INIT, a) == State([], map[], 1, Some(7), map[], multiset{}, map[0 := Load(7, 1, [], 1)], 1);
    RepeatedPageIsStoredTwice(x);
    AnswerReachesOneCopy(x, done);
    var end := State([done, x], map[], 1, Some(7), map[], multiset{}, map[], 2);
    assert !end.operations[1].terminal && !Covered(end, id);
  }
}
