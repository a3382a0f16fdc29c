/**
 * The reload/menu toggle of the dashboard page (www/tf-dash.js) as a pure
 * state machine: the state the script's closure and the menu element hold,
 * one step per event the page's event loop delivers, and lemmas about any
 * sequence of such events. The class TfDash.ReloadControl is proved against
 * Step.
 */
module ReloadEvents {

  /**
   * What the "menu" element shows. Empty stands for whatever the page put
   * there before the script rendered its link.
   */
  datatype Menu = Empty | StopLink | StartLink

  /**
   * reload: the closure's flag, true until cancelReload runs.
   * menu: the menu element's contents.
   * pendingButton: addButton is waiting for DOMContentLoaded.
   * reloaded: location.reload() has been called.
   */
  datatype Snapshot = Snapshot(reload: bool, menu: Menu, pendingButton: bool, reloaded: bool)

  /**
   * The events that reach the script after it has run:
   * DomContentLoaded, the document's structure-ready signal;
   * CancelReload, a direct call of the global tfdash.cancelReload;
   * FireTimer, the reload timer's callback;
   * ClickMenu, the user following the link the menu shows.
   */
  datatype Event = DomContentLoaded | CancelReload | FireTimer | ClickMenu

  /** The state right after the script has run, given whether the document was still loading. */
  function Initial(readyStateLoading: bool): (s: Snapshot)
    ensures s.reload && !s.reloaded
    ensures s.pendingButton == readyStateLoading
    ensures s.menu == (if readyStateLoading then Empty else StopLink)
  {
    if readyStateLoading then Snapshot(true, Empty, true, false)
    else Snapshot(true, StopLink, false, false)
  }

  /**
   * One event. No event sets the flag again, registers the listener again
   * or undoes a reload; a reload happens only when the armed timer fires or
   * the user follows the start link.
   */
  function Step(s: Snapshot, e: Event): (r: Snapshot)
    ensures r.reload ==> s.reload
    ensures r.pendingButton ==> s.pendingButton
    ensures s.reloaded ==> r.reloaded
    ensures r.reloaded && !s.reloaded ==>
              (e == FireTimer && s.reload) || (e == ClickMenu && s.menu == StartLink)
  {
    match e
    case DomContentLoaded =>
      if s.pendingButton then s.(pendingButton := false, menu := StopLink) else s
    case CancelReload =>
      s.(reload := false, menu := StartLink)
    case FireTimer =>
      if s.reload then s.(reloaded := true) else s
    case ClickMenu =>
      match s.menu
      case Empty => s
      case StopLink => s.(reload := false, menu := StartLink)
      case StartLink => s.(reloaded := true)
  }

  /**
   * A sequence of events, delivered one after the other by the event loop.
   * A listener that has run is never waiting again, and a reload is never
   * undone.
   */
  function Run(s: Snapshot, es: seq<Event>): (r: Snapshot)
    ensures r.pendingButton ==> s.pendingButton
    ensures s.reloaded ==> r.reloaded
    decreases |es|
  {
    if es == [] then s else Run(Step(s, es[0]), es[1..])
  }

  /** Running two sequences one after the other is running their concatenation. */
  lemma {:induction false} RunAppend(s: Snapshot, a: seq<Event>, b: seq<Event>)
    ensures Run(s, a + b) == Run(Run(s, a), b)
    decreases |a|
  {
    if a == [] {
      assert a + b == b;
    } else {
      assert (a + b)[0] == a[0];
      assert (a + b)[1..] == a[1..] + b;
      RunAppend(Step(s, a[0]), a[1..], b);
    }
  }

  /** The last event of a sequence is one step from the state before it. */
  lemma RunSnoc(s: Snapshot, es: seq<Event>, e: Event)
    ensures Run(s, es + [e]) == Step(Run(s, es), e)
  {
    RunAppend(s, es, [e]);
  }

  /** Firing the timer reloads the page exactly when the flag is still set. */
  lemma TimerReloadsIffArmed(s: Snapshot)
    requires !s.reloaded
    ensures Step(s, FireTimer).reloaded <==> s.reload
    ensures Step(s, FireTimer).reload == s.reload && Step(s, FireTimer).menu == s.menu
  {
  }

  /** cancelReload clears the flag and shows the start link; nothing else changes. */
  lemma CancelEffect(s: Snapshot)
    ensures Step(s, CancelReload) == Snapshot(false, StartLink, s.pendingButton, s.reloaded)
  {
  }

  /** No event sets the flag back: after any events it is set only if it was set before. */
  lemma {:induction false} ReloadNeverRearmed(s: Snapshot, es: seq<Event>)
    ensures Run(s, es).reload ==> s.reload
    decreases |es|
  {
    if es != [] {
      ReloadNeverRearmed(Step(s, es[0]), es[1..]);
    }
  }

  /**
   * Once cancelReload has run, the timer callback is a no-op, whatever
   * happened before the cancellation and between it and the timer.
   */
  lemma TimerAfterCancelIsNoOp(s: Snapshot, before: seq<Event>, between: seq<Event>)
    ensures var c := Run(s, before + [CancelReload] + between);
            !c.reload && Step(c, FireTimer) == c
  {
    RunAppend(s, before + [CancelReload], between);
    RunSnoc(s, before, CancelReload);
    ReloadNeverRearmed(Step(Run(s, before), CancelReload), between);
  }

  /** Events that happen without the user: everything but a click on the menu. */
  predicate Unattended(es: seq<Event>)
  {
    forall i :: 0 <= i < |es| ==> es[i] != ClickMenu
  }

  /** Once cancelled, the page is never reloaded unless the user clicks "start reloading". */
  lemma {:induction false} CancelledStaysLoaded(s: Snapshot, es: seq<Event>)
    requires !s.reload && !s.reloaded
    requires Unattended(es)
    ensures !Run(s, es).reloaded && !Run(s, es).reload
    decreases |es|
  {
    if es != [] {
      assert es[0] != ClickMenu;
      CancelledStaysLoaded(Step(s, es[0]), es[1..]);
    }
  }

  /**
   * The start link only ever shows on a cancelled page, whatever the events:
   * it is written only by cancelReload, and the flag is never set again.
   */
  predicate StartLinkCancelled(s: Snapshot)
  {
    s.menu == StartLink ==> !s.reload
  }

  lemma {:induction false} StartLinkStaysCancelled(s: Snapshot, es: seq<Event>)
    requires StartLinkCancelled(s)
    ensures StartLinkCancelled(Run(s, es))
    decreases |es|
  {
    if es != [] {
      StartLinkStaysCancelled(Step(s, es[0]), es[1..]);
    }
  }

  /**
   * While the flag is set, nothing but the timer reloads the page: as long
   * as the timer has not fired, a page that is still armed has not been
   * reloaded.
   */
  lemma {:induction false} ArmedReloadsOnlyByTimer(s: Snapshot, es: seq<Event>)
    requires s.reload && !s.reloaded && s.menu != StartLink
    requires forall i :: 0 <= i < |es| ==> es[i] != FireTimer
    ensures Run(s, es).reload ==> !Run(s, es).reloaded
    decreases |es|
  {
    if es != [] {
      var t := Step(s, es[0]);
      assert es[0] != FireTimer;
      if t.reload {
        ArmedReloadsOnlyByTimer(t, es[1..]);
      } else {
        ReloadNeverRearmed(t, es[1..]);
      }
    }
  }

  /**
   * The menu mirrors the flag: while the button is still pending nothing is
   * rendered and the flag is set; once it is rendered, an armed page shows
   * exactly the stop link and a cancelled page exactly the start link.
   */
  predicate Coherent(s: Snapshot)
  {
    && (s.pendingButton ==> s.reload)
    && s.menu == (if s.pendingButton then Empty else if s.reload then StopLink else StartLink)
  }

  /** Events that reach the page through its own controls, not a direct call of cancelReload. */
  predicate LinkDriven(es: seq<Event>)
  {
    forall i :: 0 <= i < |es| ==> es[i] != CancelReload
  }

  /** When cancelReload is only reached through the stop link, the menu keeps mirroring the flag. */
  lemma {:induction false} LinkDrivenKeepsCoherent(s: Snapshot, es: seq<Event>)
    requires Coherent(s)
    requires LinkDriven(es)
    ensures Coherent(Run(s, es))
    decreases |es|
  {
    if es != [] {
      assert es[0] != CancelReload;
      LinkDrivenKeepsCoherent(Step(s, es[0]), es[1..]);
    }
  }

  /** From the start of the page, link-driven use keeps the menu mirroring the flag. */
  lemma LinkDrivenFromStart(readyStateLoading: bool, es: seq<Event>)
    requires LinkDriven(es)
    ensures Coherent(Run(Initial(readyStateLoading), es))
  {
    LinkDrivenKeepsCoherent(Initial(readyStateLoading), es);
  }

  /**
   * Once the button has been rendered, the menu mirrors the flag after any
   * events at all, direct calls of cancelReload included.
   */
  lemma {:induction false} RenderedKeepsCoherent(s: Snapshot, es: seq<Event>)
    requires Coherent(s) && !s.pendingButton
    ensures Coherent(Run(s, es)) && !Run(s, es).pendingButton
    decreases |es|
  {
    if es != [] {
      RenderedKeepsCoherent(Step(s, es[0]), es[1..]);
    }
  }

  /** On a page that had loaded when the script ran, the menu mirrors the flag whatever happens. */
  lemma LoadedPageMirrors(es: seq<Event>)
    ensures Coherent(Run(Initial(false), es))
  {
    RenderedKeepsCoherent(Initial(false), es);
  }

  /**
   * But the menu does not always mirror the flag: a direct call of
   * cancelReload while the document is still loading is overwritten by the
   * deferred addButton, which leaves the stop link showing a cancelled page.
   */
  lemma DirectCancelBeforeReadyShowsStop()
    ensures var s := Run(Initial(true), [CancelReload, DomContentLoaded]);
            !s.reload && s.menu == StopLink && !Coherent(s)
  {
  }

  /** A deferred button appears on DOMContentLoaded and never before it. */
  lemma {:induction false} DeferredButtonWaitsForReady(s: Snapshot, es: seq<Event>)
    requires s.pendingButton && s.menu == Empty
    requires forall i :: 0 <= i < |es| ==> es[i] !in {DomContentLoaded, CancelReload}
    ensures Run(s, es).pendingButton && Run(s, es).menu == Empty
    ensures Run(s, es + [DomContentLoaded]).menu == StopLink
    decreases |es|
  {
    if es == [] {
      assert es + [DomContentLoaded] == [DomContentLoaded];
    } else {
      assert es[0] !in {DomContentLoaded, CancelReload};
      assert (es + [DomContentLoaded])[1..] == es[1..] + [DomContentLoaded];
      DeferredButtonWaitsForReady(Step(s, es[0]), es[1..]);
    }
  }
}
