/**
 * The script block of www/tf-dash.js as an object: the closure's `reload`
 * flag, the "menu" element's contents, the DOMContentLoaded listener that
 * may still be waiting, and whether location.reload() has been called.
 * Each method is one thing the page does; every method but AddButton is
 * proved against ReloadEvents.Step. The constructor is the script's own run.
 */
module TfDash {
  import opened ReloadEstimate
  import opened ReloadEvents

  class ReloadControl {
    /** The closure variable `reload`: true until cancelReload runs. */
    var reload: bool
    /** What the menu element shows. */
    var menu: Menu
    /** addButton is registered for DOMContentLoaded and has not run yet. */
    var pendingButton: bool
    /** location.reload() has been called. */
    var reloaded: bool
    /** The wall-clock time the reload is aimed at, fixed when the script runs. */
    const target: real
    /** The delay the timer was armed with. */
    const delay: real

    /** The state of the page as the event model sees it. */
    function Current(): (s: Snapshot)
      reads this
    {
      Snapshot(reload, menu, pendingButton, reloaded)
    }

    /** The start link shows only on a cancelled page. */
    ghost predicate Valid()
      reads this
    {
      StartLinkCancelled(Current())
    }

    /**
     * The script's run at page load, given the measured frame rate, the
     * clock and whether document.readyState is "loading".
     */
    constructor Init(fps: real, now: nat, readyStateLoading: bool)
      ensures Valid()
      ensures target == Target(now, fps) && delay == Delay(now, fps)
      ensures target > now as real && delay > 0.0
      ensures Current() == Initial(readyStateLoading)
      ensures readyStateLoading ==> pendingButton && menu == Empty
      ensures !readyStateLoading ==> !pendingButton && menu == StopLink
    {
      reload := true;
      var offset := Min(750.0, Max(75.0, (60.0 - fps) * 1000.0 / 60.0));
      var t := (1000 * (now / 1000) + 1000) as real + offset;
      target := t;
      delay := t - now as real;
      menu := Empty;
      pendingButton := false;
      reloaded := false;
      new;
      if readyStateLoading {
        pendingButton := true;
      } else {
        AddButton();
      }
    }

    /** addButton: show the "stop reloading" link, whatever the flag says. */
    method AddButton()
      modifies this`menu
      ensures Valid()
      ensures menu == StopLink
      ensures Current() == old(Current()).(menu := StopLink)
    {
      menu := StopLink;
    }

    /** tfdash.cancelReload: clear the flag and show the "start reloading" link. */
    method CancelReload()
      requires Valid()
      modifies this`reload, this`menu
      ensures Valid()
      ensures !reload && menu == StartLink
      ensures Current() == Step(old(Current()), Event.CancelReload)
    {
      reload := false;
      menu := StartLink;
    }

    /** The timer callback: reload the page only if the flag is still set. */
    method FireTimer()
      requires Valid()
      modifies this`reloaded
      ensures Valid()
      ensures reloaded == (old(reloaded) || reload)
      ensures Current() == Step(old(Current()), Event.FireTimer)
    {
      if reload {
        reloaded := true;
      }
    }

    /** DOMContentLoaded: run the deferred addButton, if one is waiting. */
    method DomContentLoaded()
      requires Valid()
      modifies this`menu, this`pendingButton
      ensures Valid()
      ensures old(pendingButton) ==> menu == StopLink && !pendingButton
      ensures !old(pendingButton) ==> menu == old(menu) && !pendingButton
      ensures Current() == Step(old(Current()), Event.DomContentLoaded)
    {
      if pendingButton {
        pendingButton := false;
        AddButton();
      }
    }

    /**
     * The user follows the menu's link: the stop link calls cancelReload,
     * the start link calls location.reload().
     */
    method ClickMenu()
      requires Valid()
      modifies this`reload, this`menu, this`reloaded
      ensures Valid()
      ensures old(menu) == StopLink ==> !reload && menu == StartLink && reloaded == old(reloaded)
      ensures old(menu) == StartLink ==> reloaded && !reload && menu == StartLink
      ensures old(menu) == Empty ==> Current() == old(Current())
      ensures Current() == Step(old(Current()), Event.ClickMenu)
    {
      match menu
      case Empty =>
      case StopLink => CancelReload();
      case StartLink => reloaded := true;
    }

    /** Deliver one event to the page. */
    method Deliver(e: Event)
      requires Valid()
      modifies this`reload, this`menu, this`pendingButton, this`reloaded
      ensures Valid()
      ensures Current() == Step(old(Current()), e)
    {
      match e
      case DomContentLoaded => DomContentLoaded();
      case CancelReload => CancelReload();
      case FireTimer => FireTimer();
      case ClickMenu => ClickMenu();
    }
  }

  /** An already loaded page whose timer fires before anyone clicks is reloaded. */
  method ArmedPageReloads(fps: real, now: nat) returns (reloaded: bool)
    ensures reloaded
  {
    var page := new ReloadControl.Init(fps, now, false);
    page.FireTimer();
    reloaded := page.reloaded;
  }

  /** A page whose stop link is clicked before the timer fires is not reloaded by the timer. */
  method CancelledPageStays(fps: real, now: nat, readyStateLoading: bool) returns (reloaded: bool)
    ensures !reloaded
  {
    var page := new ReloadControl.Init(fps, now, readyStateLoading);
    page.DomContentLoaded();
    page.ClickMenu();
    page.FireTimer();
    reloaded := page.reloaded;
  }
}
