/**
 * The composable `useCustomFilterViews` with its refs as fields. Every entry point is proved to
 * take the state to what `ViewApply` says, so the results about runs hold of it.
 */
module CustomFilterViews {
  import opened Wrappers
  import opened ViewApply

  class FilterViews {
    const options: Options

    // The page's list state, shared with the composable.
    var activeTab: Tab
    var activeView: View

    var applying: bool
    var applyError: bool
    var failedViewTab: Option<Tab>
    var builtInViewSnapshot: Option<Snapshot>
    var committedViewSnapshot: Option<Snapshot>
    var pendingViewApply: Option<Pending>
    var viewApplySequence: nat
    var ignoreNextStateChange: bool

    // Whether Vue has queued the state watcher.
    var watcherQueued: bool

    ghost var inFlight: set<Request>
    ghost var touched: bool
    ghost var lastBuiltIn: Option<Snapshot>

    ghost function Current(): State
      reads this
    {
      State(Snapshot(activeTab, activeView), applying, applyError, failedViewTab, builtInViewSnapshot,
            committedViewSnapshot, pendingViewApply, viewApplySequence, ignoreNextStateChange, watcherQueued,
            inFlight, touched, lastBuiltIn)
    }

    constructor (options: Options, tab: Tab, view: View)
      requires view.mode.Some? == options.hasMode
      ensures this.options == options && Initial(options, Current()) && Current().live == Snapshot(tab, view)
    {
      this.options, activeTab, activeView := options, tab, view;
      applying, applyError, failedViewTab := false, false, None;
      builtInViewSnapshot, committedViewSnapshot, pendingViewApply := None, None, None;
      viewApplySequence, ignoreNextStateChange, watcherQueued := 0, false, false;
      inFlight, touched, lastBuiltIn := {}, false, None;
    }

    method CaptureCurrentSnapshot() returns (snapshot: Snapshot)
      ensures snapshot == Snapshot(activeTab, activeView)
    {
      snapshot := Snapshot(activeTab, activeView);
    }

    ghost method NoteCommitted()
      modifies `lastBuiltIn
      ensures Current() == Remember(old(Current()))
    {
      if committedViewSnapshot.Some? && committedViewSnapshot.value.tab.BuiltIn? {
        lastBuiltIn := committedViewSnapshot;
      }
    }

    method CaptureCommittedSnapshot() returns (snapshot: Snapshot)
      modifies `committedViewSnapshot
      ensures snapshot == old(committedViewSnapshot).GetOr(Snapshot(old(activeTab), old(activeView)))
      ensures committedViewSnapshot == Some(snapshot)
    {
      if committedViewSnapshot.None? {
        var captured := CaptureCurrentSnapshot();
        committedViewSnapshot := Some(captured);
      }
      snapshot := committedViewSnapshot.value;
    }

    /** Assigning the refs always queues the watcher: the arrays are fresh copies. */
    method RestoreSnapshot(snapshot: Snapshot, suppressStateWatch: bool)
      modifies `activeTab, `activeView, `ignoreNextStateChange, `watcherQueued
      ensures activeTab == snapshot.tab
      ensures activeView == if options.hasMode && snapshot.view.mode.Some? then snapshot.view
                            else snapshot.view.(mode := old(activeView.mode))
      ensures ignoreNextStateChange == (old(ignoreNextStateChange) || suppressStateWatch)
      ensures watcherQueued
    {
      if suppressStateWatch { ignoreNextStateChange := true; }
      activeTab := snapshot.tab;
      var mode := activeView.mode;
      if options.hasMode && snapshot.view.mode.Some? { mode := snapshot.view.mode; }
      activeView := snapshot.view.(mode := mode);
      watcherQueued := true;
    }

    /** Makes every refresh in flight stale and clears what the current apply left behind. */
    method InvalidateApply()
      modifies `viewApplySequence, `applying, `pendingViewApply, `applyError, `failedViewTab
      ensures viewApplySequence == old(viewApplySequence) + 1
      ensures !applying && pendingViewApply.None? && !applyError && failedViewTab.None?
    {
      viewApplySequence := viewApplySequence + 1;
      applying := false;
      pendingViewApply := None;
      applyError := false;
      failedViewTab := None;
    }

    method MarkApplying(target: Snapshot, previous: Snapshot)
      modifies `viewApplySequence, `applying, `pendingViewApply, `applyError, `failedViewTab
      ensures viewApplySequence == old(viewApplySequence) + 1
      ensures applying && pendingViewApply == Some(Pending(target, previous)) && !applyError && failedViewTab.None?
    {
      viewApplySequence := viewApplySequence + 1;
      pendingViewApply := Some(Pending(target, previous));
      applyError := false;
      failedViewTab := None;
      applying := true;
    }

    /** The rollback both failure branches perform. */
    method RollBack(target: Snapshot, previous: Snapshot)
      modifies `activeTab, `activeView, `ignoreNextStateChange, `watcherQueued, `applyError, `failedViewTab, `pendingViewApply
      ensures activeTab == previous.tab
      ensures activeView == if options.hasMode && previous.view.mode.Some? then previous.view
                            else previous.view.(mode := old(activeView.mode))
      ensures ignoreNextStateChange && watcherQueued && applyError && failedViewTab == Some(target.tab)
      ensures pendingViewApply == Some(Pending(target, previous))
    {
      RestoreSnapshot(previous, true);
      applyError := true;
      failedViewTab := Some(target.tab);
      pendingViewApply := Some(Pending(target, previous));
    }

    /** What a built-in tab gets back from the saved snapshot, which is then forgotten. */
    method RestoreBuiltInView()
      modifies `activeView, `builtInViewSnapshot
      ensures activeView == BuiltInView(options, old(builtInViewSnapshot), old(activeView.mode))
      ensures builtInViewSnapshot.None?
    {
      var mode := activeView.mode;
      if options.hasMode {
        mode := if builtInViewSnapshot.Some? && builtInViewSnapshot.value.view.mode.Some?
                then builtInViewSnapshot.value.view.mode
                else if options.builtInMode.Some? then options.builtInMode
                else mode;
      }
      var saved := if builtInViewSnapshot.Some? then builtInViewSnapshot.value.view else EmptyView(None);
      activeView := saved.(mode := mode);
      builtInViewSnapshot := None;
    }

    /** `performViewApply` up to its `await`; `request` is what waits for the refresh. */
    method PerformViewApply(target: Snapshot, previous: Snapshot) returns (ghost request: Request)
      modifies this
      ensures Current() == Perform(options, old(Current()), target, previous)
      ensures request in inFlight && request.sequence == viewApplySequence
    {
      MarkApplying(target, previous);
      RestoreSnapshot(target, false);
      request := Request(viewApplySequence, target, previous);
      inFlight := inFlight + {request};
    }

    /** The rest of `performViewApply`, when its refresh resolves or rejects. */
    method CompleteViewApply(sequence: nat, target: Snapshot, previous: Snapshot, succeeded: bool)
      requires Request(sequence, target, previous) in inFlight
      modifies this
      ensures Current() == Step(options, old(Current()), Finish(Request(sequence, target, previous), succeeded))
    {
      hide Remember;
      inFlight := inFlight - {Request(sequence, target, previous)};
      if sequence == viewApplySequence {
        if !succeeded {
          RollBack(target, previous);
        } else {
          committedViewSnapshot := Some(target);
          pendingViewApply := None;
        }
        applying := false;
      }
      NoteCommitted();
    }

    /** `found` is what `findViewByTabKey` returns. */
    method ApplyCustomViewTab(tab: Tab, found: Option<View>) returns (known: bool)
      modifies this
      ensures known == (tab.Custom? && found.Some?)
      ensures Current() == Step(options, old(Current()), Apply(tab, found))
    {
      if tab.BuiltIn? || found.None? {
        NoteCommitted();
        return false;
      }
      var previous := CaptureCommittedSnapshot();
      if previous.tab.BuiltIn? {
        builtInViewSnapshot := Some(previous);
      }
      var mode := if options.hasMode then Some(options.normalize(found.value.mode)) else None;
      ghost var _ := PerformViewApply(Snapshot(tab, found.value.(mode := mode)), previous);
      NoteCommitted();
      return true;
    }

    method RetryViewApply()
      modifies this
      ensures Current() == Step(options, old(Current()), Retry)
    {
      if pendingViewApply.Some? {
        ghost var _ := PerformViewApply(pendingViewApply.value.target, pendingViewApply.value.previous);
      }
      NoteCommitted();
    }

    /** The callback of the state watcher. */
    method OnStateChange()
      requires watcherQueued
      modifies this
      ensures Current() == Step(options, old(Current()), Flush)
    {
      watcherQueued, touched := false, false;
      if ignoreNextStateChange {
        ignoreNextStateChange := false;
      } else if applying {
        var current := CaptureCurrentSnapshot();
        if pendingViewApply.Some? && current != pendingViewApply.value.target {
          InvalidateApply();
          committedViewSnapshot := Some(current);
        }
      } else {
        var current := CaptureCurrentSnapshot();
        committedViewSnapshot := Some(current);
      }
      NoteCommitted();
    }

    method ConsumeFailedViewApply(tab: Tab) returns (consumed: bool)
      modifies this
      ensures consumed == (old(failedViewTab) == Some(tab))
      ensures Current() == Step(options, old(Current()), ConsumeFailed(tab))
    {
      consumed := failedViewTab == Some(tab);
      if consumed { failedViewTab := None; }
      NoteCommitted();
    }

    method ApplyBuiltInTab(tab: Tab) returns (wasCustomViewTab: bool)
      modifies this
      ensures wasCustomViewTab == (tab.BuiltIn? && old(activeTab).Custom?)
      ensures Current() == Step(options, old(Current()), SwitchBuiltIn(tab))
    {
      hide Remember, BuiltInView;
      if tab.Custom? {
        NoteCommitted();
        return false;
      }
      InvalidateApply();

      wasCustomViewTab := activeTab.Custom?;
      watcherQueued := watcherQueued || wasCustomViewTab || activeTab != tab;
      activeTab := tab;
      if wasCustomViewTab {
        RestoreBuiltInView();
      }
      var current := CaptureCurrentSnapshot();
      committedViewSnapshot := Some(current);
      assert Current() == LeaveTo(options, old(Current()), tab);
      hide LeaveTo;
      NoteCommitted();
    }

    /** Anybody else changing the list state. */
    method EditListState(tab: Tab, view: View)
      modifies this
      ensures Current() == Step(options, old(Current()), Edit(Snapshot(tab, view)))
    {
      activeTab, activeView := tab, view;
      watcherQueued, touched := true, true;
      NoteCommitted();
    }
  }
}
