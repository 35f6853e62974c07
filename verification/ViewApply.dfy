/**
 * Applying saved list views. An apply is optimistic: it installs the view's filters, sorts,
 * columns and display mode, starts a refresh, and rolls back to the committed snapshot if the
 * refresh fails. Refreshes may finish in any order; a sequence number cuts off the stale ones.
 *
 * Two things happen behind the composable's back. Whoever edits the list state queues the state
 * watcher, which runs later in a microtask (`Flush`); and a refresh completes at any time.
 */
module ViewApply {
  import opened Wrappers

  /** A tab key: `Custom(rest)` is the key "custom-view:" + rest, any other key is built in. */
  datatype Tab = BuiltIn(key: string) | Custom(rest: string)

  datatype Condition = Condition(field: string, value: string)
  datatype Column = Column(key: string, visible: bool)

  datatype View = View(filters: seq<Condition>, sorts: seq<Condition>, columns: seq<Column>, mode: Option<string>)

  /** The list state, live or remembered. */
  datatype Snapshot = Snapshot(tab: Tab, view: View)

  /**
   * `hasMode`: the page has a display mode at all; `builtInMode`: what built-in tabs fall back to;
   * `normalize`: what a view's display mode becomes, "table" for none unless the page says otherwise.
   */
  datatype Options = Options(hasMode: bool, builtInMode: Option<string>, normalize: Option<string> -> string)

  /** One `performViewApply` that waits for its refresh. */
  datatype Request = Request(sequence: nat, target: Snapshot, previous: Snapshot)

  datatype Pending = Pending(target: Snapshot, previous: Snapshot)

  /**
   * The refs of the composable, then what surrounds it: whether the watcher is queued, and the
   * refreshes in flight. `touched` (an edit the watcher has not seen) and `lastBuiltIn` (the
   * last snapshot committed on a built-in tab) only record history.
   */
  datatype State = State(
    live: Snapshot,
    applying: bool,
    error: bool,
    failedTab: Option<Tab>,
    builtIn: Option<Snapshot>,
    committed: Option<Snapshot>,
    pending: Option<Pending>,
    sequence: nat,
    ignoreNext: bool,
    queued: bool,
    inFlight: set<Request>,
    touched: bool,
    lastBuiltIn: Option<Snapshot>)

  datatype Event =
    | Apply(tab: Tab, view: Option<View>)
    | Retry
    | Finish(request: Request, ok: bool)
    | Edit(live: Snapshot)
    | Flush
    | SwitchBuiltIn(tab: Tab)
    | ConsumeFailed(tab: Tab)

  // ----- The transitions -----

  /** `restoreSnapshot`: the display mode is only written where there is one to write. */
  function Restore(o: Options, live: Snapshot, snapshot: Snapshot): Snapshot {
    if o.hasMode && snapshot.view.mode.Some? then snapshot
    else snapshot.(view := snapshot.view.(mode := live.view.mode))
  }

  function Perform(o: Options, s: State, target: Snapshot, previous: Snapshot): State {
    s.(sequence := s.sequence + 1,
       pending := Some(Pending(target, previous)), error := false, failedTab := None, applying := true,
       live := Restore(o, s.live, target), queued := true,
       inFlight := s.inFlight + {Request(s.sequence + 1, target, previous)})
  }

  function StartApply(o: Options, s: State, tab: Tab, view: View): State {
    var previous := s.committed.GetOr(s.live);
    var target := Snapshot(tab, view.(mode := if o.hasMode then Some(o.normalize(view.mode)) else None));
    Perform(o, s.(committed := Some(previous), builtIn := if previous.tab.Custom? then s.builtIn else Some(previous)),
            target, previous)
  }

  function Complete(o: Options, s: State, request: Request, ok: bool): State {
    var s := s.(inFlight := s.inFlight - {request});
    if request.sequence != s.sequence then s
    else if ok then
      s.(committed := Some(request.target), pending := None, applying := false)
    else
      s.(live := Restore(o, s.live, request.previous), ignoreNext := true, queued := true,
         error := true, failedTab := Some(request.target.tab),
         pending := Some(Pending(request.target, request.previous)), applying := false)
  }

  /** The watcher: an edit during an apply cancels the apply; outside of one it is committed. */
  function RunWatcher(s: State): State {
    var s := s.(queued := false, touched := false);
    if s.ignoreNext then s.(ignoreNext := false)
    else if s.applying then
      if s.pending.Some? && s.live != s.pending.value.target then
        s.(sequence := s.sequence + 1, applying := false, pending := None, error := false, failedTab := None,
           committed := Some(s.live))
      else s
    else s.(committed := Some(s.live))
  }

  function EmptyView(mode: Option<string>): View {
    View([], [], [], mode)
  }

  /** What a built-in tab shows after a custom one. */
  function BuiltInView(o: Options, saved: Option<Snapshot>, current: Option<string>): View {
    var view := if saved.Some? then saved.value.view else EmptyView(None);
    view.(mode :=
      if !o.hasMode then current
      else if view.mode.Some? then view.mode
      else if o.builtInMode.Some? then o.builtInMode
      else current)
  }

  function LeaveTo(o: Options, s: State, tab: Tab): State {
    var wasCustom := s.live.tab.Custom?;
    var live := Snapshot(tab, if wasCustom then BuiltInView(o, s.builtIn, s.live.view.mode) else s.live.view);
    s.(sequence := s.sequence + 1, applying := false, pending := None, error := false, failedTab := None,
       live := live, queued := s.queued || wasCustom || live != s.live,
       builtIn := if wasCustom then None else s.builtIn, committed := Some(live))
  }

  function Remember(s: State): State {
    if s.committed.Some? && !s.committed.value.tab.Custom? then s.(lastBuiltIn := s.committed) else s
  }

  function Respond(o: Options, s: State, event: Event): State {
    match event
    case Apply(tab, view) => if tab.Custom? && view.Some? then StartApply(o, s, tab, view.value) else s
    case Retry =>
      if s.pending.Some? then Perform(o, s, s.pending.value.target, s.pending.value.previous) else s
    case Finish(request, ok) => if request in s.inFlight then Complete(o, s, request, ok) else s
    case Edit(live) => s.(live := live, queued := true, touched := true)
    case Flush => if s.queued then RunWatcher(s) else s
    case SwitchBuiltIn(tab) => if tab.Custom? then s else LeaveTo(o, s, tab)
    case ConsumeFailed(tab) => if s.failedTab == Some(tab) then s.(failedTab := None) else s
  }

  function Step(o: Options, s: State, event: Event): State {
    Remember(Respond(o, s, event))
  }

  function Run(o: Options, s: State, events: seq<Event>): State {
    if events == [] then s else Step(o, Run(o, s, events[..|events| - 1]), events[|events| - 1])
  }

  ghost predicate HasMode(o: Options, snapshot: Snapshot) {
    snapshot.view.mode.Some? == o.hasMode
  }

  ghost predicate Initial(o: Options, s: State) {
    && HasMode(o, s.live) && !s.applying && !s.error && s.failedTab.None? && s.builtIn.None? && s.committed.None?
    && s.pending.None? && s.sequence == 0 && !s.ignoreNext && !s.queued && s.inFlight == {} && !s.touched
    && s.lastBuiltIn.None?
  }

  // ----- What holds in every run -----

  /** The flags and the pending record tell exactly whether the current request is in flight. */
  ghost predicate FlagsInv(s: State) {
    Flags(s.inFlight, s.sequence, s.applying, s.error, s.pending)
  }

  ghost predicate Flags(inFlight: set<Request>, sequence: nat, applying: bool, error: bool, pending: Option<Pending>) {
    && (forall r | r in inFlight :: r.sequence <= sequence)
    && (applying <==> exists r :: r in inFlight && r.sequence == sequence)
    && (forall r | r in inFlight && r.sequence == sequence :: pending == Some(Pending(r.target, r.previous)))
    && (applying ==> !error)
    && (!applying ==> (pending.Some? <==> error))
  }

  lemma PerformKeepsFlags(o: Options, s: State, target: Snapshot, previous: Snapshot)
    requires FlagsInv(s)
    ensures FlagsInv(Perform(o, s, target, previous))
  {
    var t := Perform(o, s, target, previous);
    assert Request(t.sequence, target, previous) in t.inFlight;
  }

  lemma CompleteKeepsFlags(o: Options, s: State, request: Request, ok: bool)
    requires FlagsInv(s) && request in s.inFlight
    ensures FlagsInv(Complete(o, s, request, ok))
  {
    var t := Complete(o, s, request, ok);
    if request.sequence == s.sequence {
      forall r | r in t.inFlight ensures r.sequence != t.sequence {
        assert r.sequence == s.sequence ==> r == request;
      }
    } else if s.applying {
      var current :| current in s.inFlight && current.sequence == s.sequence;
      assert current in t.inFlight;
    }
  }

  /** Bumping the sequence number without a new request leaves every request stale. */
  lemma OthersKeepFlags(o: Options, s: State, event: Event)
    requires FlagsInv(s) && !event.Apply? && !event.Retry? && !event.Finish?
    ensures FlagsInv(Respond(o, s, event))
  {
    assert forall r | r in s.inFlight :: r.sequence != s.sequence + 1;
  }

  lemma RequestsKeepFlags(o: Options, s: State, event: Event)
    requires FlagsInv(s) && (event.Apply? || event.Retry? || event.Finish?)
    ensures FlagsInv(Respond(o, s, event))
  {
    match event
    case Apply(tab, view) =>
      if tab.Custom? && view.Some? {
        var t := StartApply(o, s, tab, view.value);
        PerformKeepsFlags(o, s, t.pending.value.target, t.pending.value.previous);
      }
    case Retry =>
      if s.pending.Some? { PerformKeepsFlags(o, s, s.pending.value.target, s.pending.value.previous); }
    case Finish(request, ok) =>
      if request in s.inFlight { CompleteKeepsFlags(o, s, request, ok); }
  }

  lemma {:induction false} StepKeepsFlags(o: Options, s: State, event: Event)
    requires FlagsInv(s)
    ensures FlagsInv(Step(o, s, event))
  {
    if event.Apply? || event.Retry? || event.Finish? {
      RequestsKeepFlags(o, s, event);
    } else {
      OthersKeepFlags(o, s, event);
    }
  }

  lemma {:induction false} FlagsInEveryRun(o: Options, s: State, events: seq<Event>)
    requires Initial(o, s)
    ensures FlagsInv(Run(o, s, events))
  {
    if events != [] {
      FlagsInEveryRun(o, s, events[..|events| - 1]);
      StepKeepsFlags(o, Run(o, s, events[..|events| - 1]), events[|events| - 1]);
    }
  }

  // ----- Runs without an edit between a failure and its retry -----

  /**
   * The order in which the page and Vue let things happen: the watcher has seen every edit before
   * a refresh completes, and has swallowed a rollback before the next edit.
   */
  ghost predicate InOrder(o: Options, s: State, event: Event) {
    match event
    case Finish(_, _) => !s.touched
    case Edit(live) => !s.ignoreNext && HasMode(o, live)
    case _ => true
  }

  ghost predicate OrderedRun(o: Options, s: State, events: seq<Event>) {
    forall i | 0 <= i < |events| :: InOrder(o, Run(o, s, events[..i]), events[i])
  }

  ghost predicate Modes(o: Options, s: State) {
    && HasMode(o, s.live)
    && (s.committed.Some? ==> HasMode(o, s.committed.value))
    && (s.builtIn.Some? ==> HasMode(o, s.builtIn.value))
    && (s.pending.Some? ==> HasMode(o, s.pending.value.target) && HasMode(o, s.pending.value.previous))
  }

  /** What the order alone ensures. */
  ghost predicate OrderInv(s: State) {
    && (s.touched ==> s.queued) && (s.ignoreNext ==> s.queued && !s.touched && s.committed.Some?)
    && (s.applying ==> s.pending.Some?)
    && (s.applying && !s.touched ==> s.live == s.pending.value.target)
    && (s.pending.Some? ==> s.pending.value.target.tab.Custom? && s.committed.Some?)
  }

  /** How the remembered snapshots hang together in every run. */
  ghost predicate HistoryInv(s: State) {
    && (s.committed.Some? && s.committed.value.tab.BuiltIn? ==> s.lastBuiltIn == s.committed)
    && (s.committed.None? ==> s.lastBuiltIn.None? && s.builtIn.None? && s.pending.None?)
    && (s.pending.Some? && s.pending.value.previous.tab.BuiltIn? ==> s.builtIn == Some(s.pending.value.previous))
  }

  /** What a failed apply would roll back to is committed, and so is what an idle page shows. */
  ghost predicate CommittedInv(s: State) {
    && (s.applying ==> s.pending.Some? && s.committed == Some(s.pending.value.previous))
    && (!s.applying && !s.touched && s.committed.Some? ==> s.live == s.committed.value)
  }

  /** The saved snapshot looks like the last one committed on a built-in tab. */
  predicate SavedIsLast(s: State) {
    s.builtIn.Some? && s.lastBuiltIn.Some? && s.builtIn.value.view == s.lastBuiltIn.value.view
  }

  /** Where custom views are to be left, now or once the page is back on the committed tab, the right snapshot is saved. */
  predicate LeavingInv(s: State) {
    (s.live.tab.Custom? || (s.committed.Some? && s.committed.value.tab.Custom?)) && s.lastBuiltIn.Some? ==> SavedIsLast(s)
  }

  /** No retry once the committed snapshot is no longer the one the failed apply would roll back to. */
  predicate Faithful(s: State, event: Event) {
    event.Retry? && s.pending.Some? ==> s.committed == Some(s.pending.value.previous)
  }

  /**
   * The two ways into a custom tab that save nothing, a retry and an edit, are taken only with the
   * right snapshot saved.
   */
  predicate EntersSaved(s: State, event: Event) {
    (event.Retry? && s.pending.Some?) || (event.Edit? && event.live.tab.Custom?) ==>
      (s.lastBuiltIn.Some? ==> SavedIsLast(s))
  }

  ghost predicate FaithfulRun(o: Options, s: State, events: seq<Event>) {
    OrderedRun(o, s, events) && forall i | 0 <= i < |events| :: Faithful(Run(o, s, events[..i]), events[i])
  }

  ghost predicate SavedRun(o: Options, s: State, events: seq<Event>) {
    OrderedRun(o, s, events) && forall i | 0 <= i < |events| :: EntersSaved(Run(o, s, events[..i]), events[i])
  }

  /** No edit that turns a built-in tab into a custom one. */
  ghost predicate TabsKept(o: Options, s: State, events: seq<Event>) {
    forall i | 0 <= i < |events| && events[i].Edit? && events[i].live.tab.Custom? :: Run(o, s, events[..i]).live.tab.Custom?
  }

  ghost predicate Inv(o: Options, s: State) {
    FlagsInv(s) && Modes(o, s) && OrderInv(s) && HistoryInv(s)
  }

  /**
   * What an event keeps. An idle page goes on showing what is committed if and only if the event is
   * faithful, and the right snapshot stays saved if and only if the event enters with it saved.
   */
  ghost predicate Keeps(o: Options, s: State, event: Event) {
    var t := Step(o, s, event);
    && OrderInv(t) && HistoryInv(t)
    && (CommittedInv(s) ==> (CommittedInv(t) <==> Faithful(s, event)))
    && (LeavingInv(s) ==> (LeavingInv(t) <==> EntersSaved(s, event)))
  }

  lemma ApplyKeeps(o: Options, s: State, tab: Tab, view: Option<View>)
    requires Inv(o, s)
    ensures Keeps(o, s, Apply(tab, view))
  {
    hide FlagsInv;
  }

  lemma RetryKeeps(o: Options, s: State)
    requires Inv(o, s)
    ensures Keeps(o, s, Retry)
  {
    hide FlagsInv;
  }

  lemma {:induction false} FinishKeeps(o: Options, s: State, request: Request, ok: bool)
    requires Inv(o, s) && !s.touched
    ensures Keeps(o, s, Finish(request, ok))
  {
    if request in s.inFlight && request.sequence == s.sequence {
      assert s.pending == Some(Pending(request.target, request.previous)) && s.applying;
    }
  }

  lemma FlushKeeps(o: Options, s: State)
    requires Inv(o, s)
    ensures Keeps(o, s, Flush)
  {
    hide FlagsInv;
  }

  lemma EditKeeps(o: Options, s: State, live: Snapshot)
    requires Inv(o, s) && InOrder(o, s, Edit(live))
    ensures Keeps(o, s, Edit(live))
  {
    hide FlagsInv;
  }

  lemma SwitchKeeps(o: Options, s: State, tab: Tab)
    requires Inv(o, s)
    ensures Keeps(o, s, SwitchBuiltIn(tab))
  {
    hide FlagsInv;
  }

  lemma {:induction false} ConsumeKeeps(o: Options, s: State, tab: Tab)
    requires Inv(o, s)
    ensures Keeps(o, s, ConsumeFailed(tab))
  {
    hide Restore, Perform, StartApply, Complete, RunWatcher, LeaveTo, BuiltInView, FlagsInv;
    if s.failedTab == Some(tab) {
      assert Step(o, s, ConsumeFailed(tab)) == Remember(s.(failedTab := None));
    } else {
      assert Step(o, s, ConsumeFailed(tab)) == Remember(s);
    }
  }

  /** For every event that comes in order: exactly when it keeps the committed view, and exactly when it keeps what leaving restores. */
  lemma {:induction false} ViewsAreKeptIff(o: Options, s: State, event: Event)
    requires Inv(o, s) && InOrder(o, s, event)
    ensures Inv(o, Step(o, s, event))
    ensures CommittedInv(s) ==> (CommittedInv(Step(o, s, event)) <==> Faithful(s, event))
    ensures LeavingInv(s) ==> (LeavingInv(Step(o, s, event)) <==> EntersSaved(s, event))
  {
    StepKeepsFlags(o, s, event);
    StepKeepsModes(o, s, event);
    hide Modes, OrderInv, HistoryInv, CommittedInv, LeavingInv, FlagsInv, Step, Faithful, EntersSaved;
    match event
    case Apply(tab, view) => ApplyKeeps(o, s, tab, view);
    case Retry => RetryKeeps(o, s);
    case Finish(request, ok) => FinishKeeps(o, s, request, ok);
    case Flush => FlushKeeps(o, s);
    case Edit(live) => EditKeeps(o, s, live);
    case SwitchBuiltIn(tab) => SwitchKeeps(o, s, tab);
    case ConsumeFailed(tab) => ConsumeKeeps(o, s, tab);
  }

  /** What holds of all events of a run holds of all before the last, and of the last. */
  lemma RunsShrink(o: Options, s: State, events: seq<Event>)
    requires events != []
    ensures var n := |events| - 1;
      var before, t, event := events[..n], Run(o, s, events[..n]), events[n];
      && (OrderedRun(o, s, events) <==> OrderedRun(o, s, before) && InOrder(o, t, event))
      && (FaithfulRun(o, s, events) <==> OrderedRun(o, s, events) && FaithfulRun(o, s, before) && Faithful(t, event))
      && (SavedRun(o, s, events) <==> OrderedRun(o, s, events) && SavedRun(o, s, before) && EntersSaved(t, event))
      && (TabsKept(o, s, events) ==> TabsKept(o, s, before))
      && (TabsKept(o, s, events) && event.Edit? && event.live.tab.Custom? ==> t.live.tab.Custom?)
  {
    hide InOrder, Faithful, EntersSaved, Run;
    var n := |events| - 1;
    assert forall i | 0 <= i < n :: events[..n][..i] == events[..i] && events[..n][i] == events[i];
    forall i | 0 <= i <= n ensures i == n || (events[..n][..i] == events[..i] && events[..n][i] == events[i]) {
    }
  }

  lemma {:induction false} OrderedRunsKeepInv(o: Options, s: State, events: seq<Event>)
    requires Initial(o, s) && OrderedRun(o, s, events)
    ensures Inv(o, Run(o, s, events))
  {
    if events != [] {
      hide OrderedRun, Inv, InOrder, Step;
      var n := |events| - 1;
      RunsShrink(o, s, events);
      OrderedRunsKeepInv(o, s, events[..n]);
      ViewsAreKeptIff(o, Run(o, s, events[..n]), events[n]);
    }
  }

  lemma {:induction false} FaithfulRunsKeepCommitted(o: Options, s: State, events: seq<Event>)
    requires Initial(o, s) && FaithfulRun(o, s, events)
    ensures CommittedInv(Run(o, s, events))
  {
    if events != [] {
      RunsShrink(o, s, events);
      hide OrderedRun, Inv, InOrder, CommittedInv, Faithful, Step;
      var n := |events| - 1;
      FaithfulRunsKeepCommitted(o, s, events[..n]);
      OrderedRunsKeepInv(o, s, events[..n]);
      ViewsAreKeptIff(o, Run(o, s, events[..n]), events[n]);
    }
  }

  lemma {:induction false} SavedRunsKeepLeaving(o: Options, s: State, events: seq<Event>)
    requires Initial(o, s) && SavedRun(o, s, events)
    ensures LeavingInv(Run(o, s, events))
  {
    if events != [] {
      RunsShrink(o, s, events);
      hide OrderedRun, Inv, InOrder, LeavingInv, EntersSaved, Step;
      var n := |events| - 1;
      SavedRunsKeepLeaving(o, s, events[..n]);
      OrderedRunsKeepInv(o, s, events[..n]);
      ViewsAreKeptIff(o, Run(o, s, events[..n]), events[n]);
    }
  }

  /** A faithful retry, and an edit on a custom tab, enter with the right snapshot saved. */
  lemma FaithfulEventsAreSaved(o: Options, s: State, event: Event)
    requires Inv(o, s) && LeavingInv(s) && Faithful(s, event)
    requires event.Edit? && event.live.tab.Custom? ==> s.live.tab.Custom?
    ensures EntersSaved(s, event)
  {
    hide FlagsInv, Modes, OrderInv;
  }

  /** Without an edit between a failure and its retry, and without an edit to a custom key, the right snapshot is always saved. */
  lemma {:induction false} FaithfulRunsAreSaved(o: Options, s: State, events: seq<Event>)
    requires Initial(o, s) && FaithfulRun(o, s, events) && TabsKept(o, s, events)
    ensures SavedRun(o, s, events)
  {
    if events != [] {
      RunsShrink(o, s, events);
      hide OrderedRun, FaithfulRun, SavedRun, TabsKept, Inv, LeavingInv, Faithful, EntersSaved;
      var n := |events| - 1;
      FaithfulIsOrdered(o, s, events);
      FaithfulRunsAreSaved(o, s, events[..n]);
      SavedRunsKeepLeaving(o, s, events[..n]);
      OrderedRunsKeepInv(o, s, events[..n]);
      FaithfulEventsAreSaved(o, Run(o, s, events[..n]), events[n]);
    }
  }

  lemma FaithfulIsOrdered(o: Options, s: State, events: seq<Event>)
    requires FaithfulRun(o, s, events)
    ensures OrderedRun(o, s, events)
  {
  }

  lemma {:induction false} FinishKeepsModes(o: Options, s: State, request: Request, ok: bool)
    requires Modes(o, s) && FlagsInv(s)
    ensures Modes(o, Step(o, s, Finish(request, ok)))
  {
    if request in s.inFlight && request.sequence == s.sequence {
      assert s.pending == Some(Pending(request.target, request.previous));
    }
  }

  lemma RememberKeepsModes(o: Options, s: State)
    ensures Modes(o, Remember(s)) <==> Modes(o, s)
  {
  }

  lemma PerformKeepsModes(o: Options, s: State, target: Snapshot, previous: Snapshot)
    requires Modes(o, s) && HasMode(o, target) && HasMode(o, previous)
    ensures Modes(o, Perform(o, s, target, previous))
  {
  }

  lemma ApplyKeepsModes(o: Options, s: State, tab: Tab, view: View)
    requires Modes(o, s)
    ensures Modes(o, StartApply(o, s, tab, view))
  {
    hide Perform;
    var previous := s.committed.GetOr(s.live);
    var target := Snapshot(tab, view.(mode := if o.hasMode then Some(o.normalize(view.mode)) else None));
    PerformKeepsModes(o, s.(committed := Some(previous), builtIn := if previous.tab.Custom? then s.builtIn else Some(previous)),
      target, previous);
  }

  lemma LeavingKeepsModes(o: Options, s: State, tab: Tab)
    requires Modes(o, s)
    ensures Modes(o, LeaveTo(o, s, tab))
  {
  }

  lemma WatcherKeepsModes(o: Options, s: State)
    requires Modes(o, s)
    ensures Modes(o, RunWatcher(s))
  {
  }

  lemma OthersKeepModes(o: Options, s: State, event: Event)
    requires Modes(o, s) && InOrder(o, s, event) && !event.Finish?
    ensures Modes(o, Step(o, s, event))
  {
    hide Remember, Perform, StartApply, LeaveTo, RunWatcher, Modes;
    RememberKeepsModes(o, Respond(o, s, event));
    match event
    case Apply(tab, view) =>
      if tab.Custom? && view.Some? { ApplyKeepsModes(o, s, tab, view.value); }
    case Retry =>
      if s.pending.Some? {
        PendingHasModes(o, s);
        PerformKeepsModes(o, s, s.pending.value.target, s.pending.value.previous);
      }
    case SwitchBuiltIn(tab) => LeavingKeepsModes(o, s, tab);
    case Flush => WatcherKeepsModes(o, s);
    case Edit(live) => EditKeepsModes(o, s, live);
    case ConsumeFailed(_) => ConsumingKeepsModes(o, s);
  }

  lemma PendingHasModes(o: Options, s: State)
    requires Modes(o, s) && s.pending.Some?
    ensures HasMode(o, s.pending.value.target) && HasMode(o, s.pending.value.previous)
  {
  }

  lemma EditKeepsModes(o: Options, s: State, live: Snapshot)
    requires Modes(o, s) && HasMode(o, live)
    ensures Modes(o, s.(live := live, queued := true, touched := true))
  {
  }

  lemma ConsumingKeepsModes(o: Options, s: State)
    requires Modes(o, s)
    ensures Modes(o, s.(failedTab := None))
  {
  }

  lemma StepKeepsModes(o: Options, s: State, event: Event)
    requires Modes(o, s) && FlagsInv(s) && InOrder(o, s, event)
    ensures Modes(o, Step(o, s, event))
  {
    hide Modes, FlagsInv, Step;
    match event
    case Finish(request, ok) => FinishKeepsModes(o, s, request, ok);
    case _ => OthersKeepModes(o, s, event);
  }

  // ----- Main results -----

  /** `applying` holds exactly while a request with the current sequence number is in flight. */
  lemma {:induction false} ApplyingIsTheCurrentRequest(o: Options, s: State, events: seq<Event>)
    requires Initial(o, s)
    ensures var t := Run(o, s, events);
      && (t.applying <==> exists r :: r in t.inFlight && r.sequence == t.sequence)
      && (forall r | r in t.inFlight && r.sequence == t.sequence ::
            t.pending == Some(Pending(r.target, r.previous)) && !t.error)
      && (!t.applying ==> (t.pending.Some? <==> t.error))
  {
    FlagsInEveryRun(o, s, events);
  }

  /** Once the watcher has drained and nothing is applying, the page shows the committed snapshot. */
  lemma {:induction false} IdleViewIsCommitted(o: Options, s: State, events: seq<Event>)
    requires Initial(o, s) && FaithfulRun(o, s, events)
    ensures var t := Run(o, s, events);
      !t.queued && !t.applying && t.committed.Some? ==> t.live == t.committed.value
  {
    OrderedRunsKeepInv(o, s, events);
    FaithfulRunsKeepCommitted(o, s, events);
  }

  /**
   * In every run, a failed apply goes back to the snapshot its request remembers and commits
   * nothing, and a stale one does nothing. If no retry came after an edit, that snapshot is the
   * committed one.
   */
  lemma {:induction false} FailureRestoresCommitted(o: Options, s: State, events: seq<Event>, request: Request)
    requires Initial(o, s) && OrderedRun(o, s, events)
    requires request in Run(o, s, events).inFlight
    ensures var t := Run(o, s, events);
      var u := Step(o, t, Finish(request, false));
      u.committed == t.committed
      && (if request.sequence == t.sequence then u.live == request.previous && !u.applying && u.error
          else u.live == t.live && u.applying == t.applying)
    ensures FaithfulRun(o, s, events) && request.sequence == Run(o, s, events).sequence ==>
      Some(request.previous) == Run(o, s, events).committed
  {
    OrderedRunsKeepInv(o, s, events);
    var t := Run(o, s, events);
    if request.sequence == t.sequence {
      assert t.pending == Some(Pending(request.target, request.previous)) && t.applying;
      if FaithfulRun(o, s, events) {
        FaithfulRunsKeepCommitted(o, s, events);
      }
    }
  }

  /** Completions of requests that were in flight when the user's edit was seen. */
  ghost predicate AllFinish(events: seq<Event>) {
    forall i | 0 <= i < |events| :: events[i].Finish?
  }

  lemma {:induction false} StaleCompletionsAreInert(o: Options, s: State, events: seq<Event>)
    requires AllFinish(events) && forall r | r in s.inFlight :: r.sequence < s.sequence
    ensures var t := Run(o, s, events);
      t.live == s.live && t.committed == s.committed && t.sequence == s.sequence && t.applying == s.applying
      && t.inFlight <= s.inFlight
  {
    if events != [] {
      StaleCompletionsAreInert(o, s, events[..|events| - 1]);
    }
  }

  /** An edit made while a view is being applied wins over every refresh still under way. */
  lemma {:induction false} EditSurvivesCompletions(o: Options, s: State, events: seq<Event>, edited: Snapshot, completions: seq<Event>)
    requires Initial(o, s) && AllFinish(completions)
    requires var t := Run(o, s, events);
      t.applying && !t.ignoreNext && t.pending.Some? && edited != t.pending.value.target
    ensures var t := Run(o, s, events);
      var u := Run(o, Step(o, Step(o, t, Edit(edited)), Flush), completions);
      u.live == edited && u.committed == Some(edited) && !u.applying && !u.error
  {
    FlagsInEveryRun(o, s, events);
    var t := Run(o, s, events);
    var v := Step(o, Step(o, t, Edit(edited)), Flush);
    StaleCompletionsAreInert(o, v, completions);
    NoErrorFromStale(o, v, completions);
  }

  lemma {:induction false} NoErrorFromStale(o: Options, s: State, events: seq<Event>)
    requires AllFinish(events) && forall r | r in s.inFlight :: r.sequence < s.sequence
    ensures Run(o, s, events).error == s.error
  {
    if events != [] {
      NoErrorFromStale(o, s, events[..|events| - 1]);
      StaleCompletionsAreInert(o, s, events[..|events| - 1]);
    }
  }

  /**
   * Switching from a custom tab to a built-in one brings back filters, sorts, columns and display
   * mode of the last snapshot committed on a built-in tab, and no refresh can undo it.
   */
  lemma {:induction false} LeavingCustomViewsUndoesThem(o: Options, s: State, events: seq<Event>, tab: Tab, completions: seq<Event>)
    requires Initial(o, s) && SavedRun(o, s, events) && tab.BuiltIn? && AllFinish(completions)
    requires var t := Run(o, s, events); t.live.tab.Custom? && t.lastBuiltIn.Some?
    ensures var t := Run(o, s, events);
      var u := Run(o, Step(o, t, SwitchBuiltIn(tab)), completions);
      u.live == Snapshot(tab, t.lastBuiltIn.value.view) && u.committed == Some(u.live) && !u.applying
  {
    OrderedRunsKeepInv(o, s, events);
    SavedRunsKeepLeaving(o, s, events);
    var t := Run(o, s, events);
    var v := Step(o, t, SwitchBuiltIn(tab));
    StaleCompletionsAreInert(o, v, completions);
  }

  // ----- What an applied view shows -----

  /** The page shows the view on its tab, with its display mode normalised where the page has one. */
  predicate ShowsView(o: Options, live: Snapshot, tab: Tab, view: View) {
    && live.tab == tab
    && live.view.filters == view.filters && live.view.sorts == view.sorts && live.view.columns == view.columns
    && live.view.mode == if o.hasMode then Some(o.normalize(view.mode)) else None
  }

  /**
   * In every run, applying a custom view shows exactly that view at once, and asks for a refresh
   * that will commit what is shown and otherwise go back to what was committed.
   */
  lemma {:induction false} AppliedViewIsShown(o: Options, s: State, events: seq<Event>, tab: Tab, view: View)
    requires Initial(o, s) && OrderedRun(o, s, events) && tab.Custom?
    ensures var t := Run(o, s, events);
      var u := Step(o, t, Apply(tab, Some(view)));
      && ShowsView(o, u.live, tab, view) && (!o.hasMode ==> u.live.view.mode == t.live.view.mode)
      && u.applying && !u.error && u.failedTab.None?
      && u.inFlight == t.inFlight + {Request(u.sequence, u.live, t.committed.GetOr(t.live))}
      && u.committed == Some(t.committed.GetOr(t.live))
  {
    OrderedRunsKeepInv(o, s, events);
    hide FlagsInv, OrderInv, HistoryInv;
  }

  /**
   * And however the run goes on: when that refresh completes as the current one, after the watcher
   * has seen every edit, the page still shows the view. If it succeeded the view is committed; if
   * it failed its tab is the one reported as failed.
   */
  lemma {:induction false} AppliedViewIsCommitted(o: Options, s: State, events: seq<Event>, request: Request)
    requires Initial(o, s) && OrderedRun(o, s, events)
    requires var t := Run(o, s, events); request in t.inFlight && request.sequence == t.sequence && !t.touched
    ensures var t := Run(o, s, events);
      var u := Step(o, t, Finish(request, true));
      && t.live == request.target && u.live == request.target && u.committed == Some(request.target)
      && !u.applying && u.pending.None? && u.failedTab == t.failedTab && u.inFlight == t.inFlight - {request}
    ensures var u := Step(o, Run(o, s, events), Finish(request, false));
      && u.error && u.failedTab == Some(request.target.tab)
      && u.pending == Some(Pending(request.target, request.previous))
  {
    OrderedRunsKeepInv(o, s, events);
    hide Modes, HistoryInv;
  }

  /** In every run, a retry shows the failed view again, and will commit it or go back to where the first attempt would. */
  lemma {:induction false} RetriedViewIsShown(o: Options, s: State, events: seq<Event>)
    requires Initial(o, s) && OrderedRun(o, s, events)
    requires Run(o, s, events).pending.Some?
    ensures var t := Run(o, s, events);
      var u := Step(o, t, Retry);
      && u.live == t.pending.value.target && u.applying && !u.error && u.failedTab.None? && u.pending == t.pending
      && u.sequence == t.sequence + 1 && u.committed == t.committed && u.builtIn == t.builtIn
      && u.inFlight == t.inFlight + {Request(u.sequence, t.pending.value.target, t.pending.value.previous)}
  {
    OrderedRunsKeepInv(o, s, events);
    hide FlagsInv, OrderInv, HistoryInv;
  }

  /**
   * In every run, switching to a built-in tab: from another one the page keeps its view; from a
   * custom one it shows the saved view, and without one nothing but the mode of built-in tabs.
   */
  lemma {:induction false} SwitchingShows(o: Options, s: State, events: seq<Event>, tab: Tab)
    requires Initial(o, s) && OrderedRun(o, s, events) && tab.BuiltIn?
    ensures var t := Run(o, s, events);
      var u := Step(o, t, SwitchBuiltIn(tab));
      && u.live.tab == tab && u.committed == Some(u.live) && !u.applying && !u.error && u.pending.None?
      && u.live.view ==
           (if t.live.tab.BuiltIn? then t.live.view
            else if t.builtIn.Some? then t.builtIn.value.view
            else View([], [], [], if o.hasMode && o.builtInMode.Some? then o.builtInMode else t.live.view.mode))
  {
    OrderedRunsKeepInv(o, s, events);
    hide FlagsInv, OrderInv, HistoryInv;
  }

  // ----- The exclusion is exact -----

  /** The retry of a failed apply; then the watcher sees the target and lets it be. */
  function Retried(o: Options, s: State): State {
    Step(o, Step(o, s, Retry), Flush)
  }

  /** The refresh of that retry fails too, and the watcher swallows the rollback. */
  function RetryAndFail(o: Options, s: State): State
    requires s.pending.Some?
  {
    var request := Request(s.sequence + 1, s.pending.value.target, s.pending.value.previous);
    Step(o, Step(o, Retried(o, s), Finish(request, false)), Flush)
  }

  ghost predicate FailedAndIdle(o: Options, s: State) {
    Modes(o, s) && s.pending.Some? && s.committed.Some? && !s.applying && !s.queued && !s.ignoreNext
  }

  lemma RetryStarts(o: Options, s: State)
    requires FailedAndIdle(o, s)
    ensures var t := Retried(o, s);
      && t.live == s.pending.value.target && t.pending == s.pending && t.committed == s.committed
      && t.applying && !t.ignoreNext && !t.queued && t.sequence == s.sequence + 1 && t.builtIn == s.builtIn
      && Request(s.sequence + 1, s.pending.value.target, s.pending.value.previous) in t.inFlight
  {
    var t := Step(o, s, Retry);
    assert t.live == s.pending.value.target && t.pending == s.pending && t.applying && t.queued && !t.ignoreNext;
  }

  lemma RetryFails(o: Options, s: State)
    requires FailedAndIdle(o, s)
    ensures var u := RetryAndFail(o, s);
      !u.applying && !u.queued && u.committed == s.committed && u.live == s.pending.value.previous
  {
    RetryStarts(o, s);
    var request := Request(s.sequence + 1, s.pending.value.target, s.pending.value.previous);
    var t := Step(o, Retried(o, s), Finish(request, false));
    assert t.live == s.pending.value.previous && t.ignoreNext && !t.applying && t.committed == s.committed && t.queued;
  }

  /**
   * In every run, a retry that fails leaves the page on the committed snapshot if and only if that
   * is still the one the first attempt would roll back to: `retryViewApply` keeps that one.
   */
  lemma {:induction false} RetryRollsBackFaithfullyIff(o: Options, s: State, events: seq<Event>)
    requires Initial(o, s) && OrderedRun(o, s, events)
    requires var t := Run(o, s, events); t.pending.Some? && !t.applying && !t.queued
    ensures var t := Run(o, s, events);
      var u := RetryAndFail(o, t);
      && !u.applying && !u.queued && u.committed == t.committed && t.committed.Some?
      && (u.live == u.committed.value <==> t.pending.value.previous == t.committed.value)
  {
    OrderedRunsKeepInv(o, s, events);
    RetryFails(o, Run(o, s, events));
  }

  /** Is the saved snapshot, or nothing at all, what `last` looked like? */
  predicate Saves(o: Options, saved: Option<Snapshot>, mode: Option<string>, last: Snapshot) {
    match saved
    case Some(snapshot) => snapshot.view == last.view
    case None => last.view == EmptyView(if o.hasMode && o.builtInMode.Some? then o.builtInMode else mode)
  }

  /**
   * In every run, a retry or an edit that enters a custom tab: leaving it again restores the last
   * snapshot committed on a built-in tab if and only if the event enters with that one saved.
   */
  lemma {:induction false} EnteringThenLeavingRestoresIff(o: Options, s: State, events: seq<Event>, event: Event, tab: Tab)
    requires Initial(o, s) && OrderedRun(o, s, events) && InOrder(o, Run(o, s, events), event) && tab.BuiltIn?
    requires var t := Run(o, s, events);
      && t.lastBuiltIn.Some? && t.builtIn.Some?
      && ((event.Retry? && t.pending.Some?) || (event.Edit? && event.live.tab.Custom?))
    ensures var t := Run(o, s, events);
      var u := Step(o, Step(o, t, event), SwitchBuiltIn(tab));
      u.live == Snapshot(tab, t.lastBuiltIn.value.view) <==> EntersSaved(t, event)
  {
    OrderedRunsKeepInv(o, s, events);
    var t := Run(o, s, events);
    var entered := Step(o, t, event);
    StepKeepsModes(o, t, event);
    assert entered.live.tab.Custom? && entered.builtIn == t.builtIn;
    assert Step(o, entered, SwitchBuiltIn(tab)).live == Snapshot(tab, BuiltInView(o, entered.builtIn, entered.live.view.mode));
  }

  /**
   * After a failed apply and its retry likewise, from any tab to any tab; if the failed apply left
   * a built-in tab and the page is on one, it is the condition of the rollback again.
   */
  lemma {:induction false} RetryThenLeaveRestoresIff(o: Options, s: State, events: seq<Event>, tab: Tab)
    requires Initial(o, s) && OrderedRun(o, s, events) && tab.BuiltIn?
    requires var t := Run(o, s, events); t.pending.Some? && !t.applying && !t.queued && t.lastBuiltIn.Some?
    ensures var t := Run(o, s, events);
      var u := Step(o, Retried(o, t), SwitchBuiltIn(tab));
      u.live == Snapshot(tab, t.lastBuiltIn.value.view) <==>
      Saves(o, t.builtIn, t.pending.value.target.view.mode, t.lastBuiltIn.value)
    ensures var t := Run(o, s, events);
      t.committed.Some? && t.committed.value.tab.BuiltIn? && t.pending.value.previous.tab.BuiltIn? ==>
      (Saves(o, t.builtIn, t.pending.value.target.view.mode, t.lastBuiltIn.value)
       <==> t.pending.value.previous.view == t.committed.value.view)
  {
    OrderedRunsKeepInv(o, s, events);
    var t := Run(o, s, events);
    RetryStarts(o, t);
    var retried := Retried(o, t);
    assert retried.live.tab.Custom? && retried.builtIn == t.builtIn && HasMode(o, retried.live);
    assert Step(o, retried, SwitchBuiltIn(tab)).live ==
           Snapshot(tab, BuiltInView(o, retried.builtIn, retried.live.view.mode));
  }

  /**
   * A page that puts a custom key with no view into its active tab keeps its view while it is
   * there, and loses it when it goes back to a built-in tab: nothing was saved.
   */
  lemma {:induction false} UnknownCustomTabLosesView(o: Options, s: State, custom: Tab, tab: Tab, edited: Snapshot)
    requires Initial(o, s) && s.live.tab.BuiltIn? && custom.Custom? && tab.BuiltIn?
    requires edited.tab.BuiltIn? && HasMode(o, edited) && (edited.view.filters != [] || edited.view.sorts != [])
    ensures var t := Step(o, Step(o, Step(o, Step(o, s, Edit(edited)), Flush), Edit(Snapshot(custom, edited.view))), Flush);
      && t.live == Snapshot(custom, edited.view) && t.committed == Some(t.live) && t.lastBuiltIn == Some(edited)
      && Step(o, t, SwitchBuiltIn(tab)).live.view != edited.view
      && Step(o, t, SwitchBuiltIn(tab)).live.view.filters == [] && Step(o, t, SwitchBuiltIn(tab)).live.view.sorts == []
  {
    var first := Step(o, Step(o, s, Edit(edited)), Flush);
    assert first.live == edited && first.committed == Some(edited) && first.lastBuiltIn == Some(edited) && first.builtIn.None?;
    var second := Step(o, Step(o, first, Edit(Snapshot(custom, edited.view))), Flush);
    assert second.live == Snapshot(custom, edited.view) && second.builtIn.None? && second.lastBuiltIn == Some(edited);
  }

  /** Such an edit is possible: apply, fail, edit on the built-in tab, retry, fail loses the edit. */
  lemma {:induction false} EditBeforeRetryIsLost(o: Options, s: State, tab: Tab, view: View, edited: Snapshot)
    requires Initial(o, s) && tab.Custom? && s.live.tab.BuiltIn? && edited.tab.BuiltIn? && HasMode(o, edited)
    requires edited != s.live
    ensures var started := Step(o, s, Apply(tab, Some(view)));
      && started.pending.Some?
      && var request := Request(1, started.pending.value.target, s.live);
         var failed := Step(o, Step(o, Step(o, started, Flush), Finish(request, false)), Flush);
         var t := Step(o, Step(o, failed, Edit(edited)), Flush);
         && t.pending.Some? && t.live == edited && t.committed == Some(edited)
         && RetryAndFail(o, t).live == s.live && RetryAndFail(o, t).committed == Some(edited)
  {
    var started := Step(o, s, Apply(tab, Some(view)));
    var target := started.pending.value.target;
    assert started.live == target && started.committed == Some(s.live);
    var request := Request(1, target, s.live);
    var applied := Step(o, started, Flush);
    assert request in applied.inFlight && applied.pending == Some(Pending(target, s.live));
    var rolledBack := Step(o, applied, Finish(request, false));
    assert rolledBack.live == s.live && rolledBack.ignoreNext;
    var failed := Step(o, rolledBack, Flush);
    assert failed.live == s.live && !failed.applying && !failed.queued && !failed.ignoreNext;
    var t := Step(o, Step(o, failed, Edit(edited)), Flush);
    assert t.live == edited && t.committed == Some(edited) && t.pending == Some(Pending(target, s.live));
    RetryFails(o, t);
  }
}
