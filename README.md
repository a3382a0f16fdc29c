# tf-dash reload scheduler, in Dafny

`www/tf-dash.js` reloads the `tf-dash.html` dashboard shortly after a new
version of the file should exist. The file is regenerated each time the wall
clock rolls over to a new second. The script reads the frame rate measured
in the second before (`tfdash.fps`), estimates how far into the next second
the new file will be ready, and arms a one-shot timer for that moment. It
also renders a "stop reloading" link in the `menu` element. That link calls
`tfdash.cancelReload`, which clears the `reload` flag the timer checks and
replaces the link with "start reloading" (a manual `location.reload()`).

The project has three modules:

- `ReloadEstimate` (`estimate.dfy`) holds the arithmetic as functions over
  exact reals, with `now` a `nat` in milliseconds. It has the offset
  `(60 - fps) * 1000 / 60` clamped to [75, 750] ms, the target (start of the
  next whole second plus the offset) and the timer delay `target - now`.
  The lemmas give the bounds, the two saturation thresholds (fps <= 15 and
  fps >= 55.5), a piecewise reference definition, and the fact that the
  target falls inside the next second.
- `ReloadEvents` (`events.dfy`) is the toggle as a pure state machine.
  A `Snapshot` holds the flag, the menu (`Empty | StopLink | StartLink`), a
  pending DOMContentLoaded listener, and whether a reload happened. `Step`
  applies one event and `Run` applies a sequence of events, as the
  single-threaded event loop delivers them. The lemmas cover properties of
  any event sequence:
  - the flag is never set again;
  - after cancellation the timer does nothing;
  - the deferred button waits for DOMContentLoaded;
  - once the button is rendered, the menu mirrors the flag: exactly the stop link
    while armed, exactly the start link once cancelled;
  - that holds after any events on a page that had loaded when the script ran,
    and on a loading page when cancellation only comes through the link.
  A concrete lemma shows that a direct call of `cancelReload` while the page is loading breaks the mirror.
- `TfDash` (`dashboard.dfy`) is the script block as a class `ReloadControl`.
  Its fields are `reload`, `menu`, `pendingButton` and `reloaded`, plus the
  fixed `target` and `delay`. Its constructor is the script's own run and
  its methods are `AddButton`, `CancelReload`, `FireTimer`,
  `DomContentLoaded` and `ClickMenu`. `AddButton` is proved to write the stop
  link and nothing else. Every other method is proved to change the state
  exactly as `ReloadEvents.Step` says. All of them keep the object invariant
  "the start link shows only on a cancelled page".

Inputs from the environment are parameters: the frame rate `fps`, the clock
`now`, and whether `document.readyState` is `"loading"`. A reload is recorded
in the `reloaded` flag.

Two behaviours of the code that the model keeps as they are:
- `fps` is not validated, so the model accepts every real, including
  negative values and values above 60.
- The deferred `addButton` writes the stop link whatever the flag says. A
  cancellation made before DOMContentLoaded is therefore covered by the stop
  link (`ReloadEvents.DirectCancelBeforeReadyShowsStop`). Only a direct call
  of the global `tfdash.cancelReload` can do that, because before
  DOMContentLoaded no rendered link can call it.

## Model

| member | source | states |
|---|---|---|
| `ReloadEstimate.Min` | www/tf-dash.js:20 | Math.min: the result is one of the arguments and no larger than either |
| `ReloadEstimate.Max` | www/tf-dash.js:20 | Math.max: the result is one of the arguments and no smaller than either |
| `ReloadEstimate.RawOffset` | www/tf-dash.js:20 | the unclamped estimate (60 - fps) * 1000 / 60: for fps in the expected range [0, 60] it is between 0 and a whole second, and it is 0 exactly at 60 fps |
| `ReloadEstimate.Offset` | www/tf-dash.js:16-20 | the offset lies in [75, 750] ms for every fps, including negative fps and fps above 60, so it is less than a second |
| `ReloadEstimate.OffsetIsMaxIff` | www/tf-dash.js:16-20 | the offset is 750 ms if and only if fps <= 15 |
| `ReloadEstimate.OffsetIsMinIff` | www/tf-dash.js:16-20 | the offset is 75 ms if and only if fps >= 55.5 |
| `ReloadEstimate.OffsetIsPiecewise` | www/tf-dash.js:12-20 | the clamped formula equals an independent piecewise definition (750, then 1000 - 50 fps / 3, then 75); strictly between 15 and 55.5 fps it is the unclamped estimate |
| `ReloadEstimate.OffsetAtThirtyFps` | www/tf-dash.js:20 | at 30 fps the offset is 500 ms |
| `ReloadEstimate.SecondStart` | www/tf-dash.js:22 | 1000 * floor(now / 1000) is a whole second no later than now and less than a second before it |
| `ReloadEstimate.Target` | www/tf-dash.js:9-22 | the target is strictly after now and falls inside the next whole second: floor(target / 1000) == floor(now / 1000) + 1 |
| `ReloadEstimate.TargetFromSecondStart` | www/tf-dash.js:22 | unfolding of Target: the target is 1000 + offset ms after the start of the current second |
| `ReloadEstimate.Delay` | www/tf-dash.js:22-24 | the timer delay target - now lies in [offset + 1, offset + 1000] ms, so it is positive |
| `ReloadEstimate.DelayRange` | www/tf-dash.js:20-24 | the delay lies in [76, 1750] ms whatever fps and now are, and now + delay is the target |
| `ReloadEvents.Initial` | www/tf-dash.js:19-40 | after the script has run the flag is set and nothing is reloaded; the button is pending (menu untouched) if and only if the document was loading, otherwise the stop link shows |
| `ReloadEvents.Step` | www/tf-dash.js:23-40 | the event-by-event definition the class is proved against (timer guard, cancelReload, deferred addButton, the two links); no event sets the flag again, re-registers the listener or undoes a reload, and a reload happens only when the armed timer fires or the start link is followed |
| `ReloadEvents.Run` | www/tf-dash.js:23-40 | the event loop delivering events one after the other; over any sequence a listener that has run never waits again and a reload is never undone |
| `ReloadEvents.TimerReloadsIffArmed` | www/tf-dash.js:23 | one-step unfolding of Step: firing the timer reloads the page if and only if the flag is set, and leaves the flag and the menu alone |
| `ReloadEvents.CancelEffect` | www/tf-dash.js:26-30 | one-step unfolding of Step: cancelReload clears the flag and shows the start link, and nothing else changes |
| `ReloadEvents.ReloadNeverRearmed` | www/tf-dash.js:19-30 | after any sequence of events the flag is set only if it was set before: the move from armed to cancelled is one-way |
| `ReloadEvents.TimerAfterCancelIsNoOp` | www/tf-dash.js:23-30 | after a cancelReload, whatever came before it and between it and the timer, the flag is clear and firing the timer changes nothing |
| `ReloadEvents.CancelledStaysLoaded` | www/tf-dash.js:23-30 | a cancelled page that has not reloaded is never reloaded by any sequence of events without a click on the menu |
| `ReloadEvents.StartLinkStaysCancelled` | www/tf-dash.js:26-35 | if the start link shows only on a cancelled page, that stays true after any sequence of events |
| `ReloadEvents.ArmedReloadsOnlyByTimer` | www/tf-dash.js:19-35 | on an armed page without the start link, no event but the timer reloads the page while the flag stays set |
| `ReloadEvents.LinkDrivenKeepsCoherent` | www/tf-dash.js:26-40 | when cancelReload is reached only through the stop link, the menu keeps mirroring the flag: nothing rendered and the flag set while the button is pending, then exactly the stop link while armed and exactly the start link once cancelled |
| `ReloadEvents.LinkDrivenFromStart` | www/tf-dash.js:19-40 | from the script's initial state, with either readyState, after every link-driven event sequence the menu mirrors the flag (exactly the stop link on an armed rendered page, exactly the start link on a cancelled one) |
| `ReloadEvents.RenderedKeepsCoherent` | www/tf-dash.js:26-35 | once the button is rendered and mirrors the flag, it keeps doing so after any events, direct calls of cancelReload included |
| `ReloadEvents.LoadedPageMirrors` | www/tf-dash.js:19-40 | on a page that had loaded when the script ran, the menu mirrors the flag after any sequence of events |
| `ReloadEvents.DirectCancelBeforeReadyShowsStop` | www/tf-dash.js:26-40 | the menu does not always mirror the flag: a direct cancelReload while loading, then DOMContentLoaded, leaves the stop link on a cancelled page |
| `ReloadEvents.DeferredButtonWaitsForReady` | www/tf-dash.js:32-40 | a deferred button leaves the menu untouched through any events other than DOMContentLoaded and cancelReload, and the stop link shows once DOMContentLoaded fires |
| `TfDash.ReloadControl.Init` | www/tf-dash.js:18-40 | the script's run: the flag is set, the target and the delay are those of the estimator (target after now, delay positive), and the stop link shows at once if the document is not loading, while otherwise the menu is untouched and the button pending |
| `TfDash.ReloadControl.AddButton` | www/tf-dash.js:32-35 | shows the stop link and changes nothing else, whatever the flag is, and keeps the object invariant |
| `TfDash.ReloadControl.CancelReload` | www/tf-dash.js:26-30 | clears the flag and shows the start link, nothing else changes, as Step says |
| `TfDash.ReloadControl.FireTimer` | www/tf-dash.js:23 | reloads if and only if the flag is set, as Step says |
| `TfDash.ReloadControl.DomContentLoaded` | www/tf-dash.js:37-38 | runs the pending addButton once, as Step says, and otherwise leaves the menu alone |
| `TfDash.ReloadControl.ClickMenu` | www/tf-dash.js:28-34 | the stop link cancels, the start link reloads on a page whose flag is clear (by the object invariant), an unrendered menu does nothing, as Step says |
| `TfDash.ReloadControl.Deliver` | www/tf-dash.js:23-40 | delivering any event changes the object exactly as Step says |
| `TfDash.ArmedPageReloads` | www/tf-dash.js:19-24 | on a page that had loaded, a timer that fires before any click reloads it |
| `TfDash.CancelledPageStays` | www/tf-dash.js:23-35 | on a page whose stop link is clicked after the button appears, the timer does not reload it |

## Left out

- The DOM and its markup: `getElementById`, the HTML strings and
  `addEventListener`. The menu is an enum, and the listener is the
  `pendingButton` flag.
- The menu element is assumed to exist whenever `cancelReload` or
  `addButton` writes it. While the document is still loading it may not have
  been parsed yet. A direct `cancelReload` then clears the flag and throws a
  TypeError at `getElementById("menu").innerHTML`, so no start link appears.
  The model always writes `StartLink`. The resulting flag is the same, but
  in the model a later click can follow a start link the page never rendered.
- The DOMContentLoaded listener is one-shot here: `pendingButton` is cleared after running
  `addButton`. The real listener stays registered, but DOMContentLoaded fires
  only once per document, so the two behave the same.
- Event sequences are unrestricted: `Run` and `Deliver` accept any sequence
  and any number of timer firings. A browser fires the timer at most once.
  The lemmas hold for every sequence, so they hold for the ones a browser
  can produce.
- `location.reload()`: only the fact that a reload was asked for is recorded
  (`reloaded`). The navigation and the new page it loads are not modelled.
- `setTimeout` and event-loop timing: when the timer fires is not modelled.
  The timer's callback is the `FireTimer` event, and its delay is a value
  (`delay`).
- `new Date().getTime()`: the clock is the parameter `now`, a `nat` in
  milliseconds.
- IEEE-754 floating point: the offset, target and delay are exact reals, so
  rounding in `(60 - fps) * 1000 / 60` and NaN or infinite `fps` are not
  modelled.
- The producer of `tfdash.fps` (the renderer that measures the frame rate)
  and the `tfdash` global namespace. `fps` is a parameter, and "a direct call
  of the global `cancelReload`" is the event `CancelReload`.
