# ExpoFlow welcome flow: a verified model of the `App` component

ExpoFlow's front end is one React component, `App` (src/App.js). It moves
through four stages: a timed intro animation, a welcome screen, a booth-number
form and an options screen. The stage is driven by the user's clicks and
keystrokes and by timers. This project models that view-state machine in Dafny
and proves what it promises. Rendering is not modelled.

- `js_string.dfy` (module `JsString`): `String.prototype.trim` as far as the
  component needs it. White space is the ECMAScript WhiteSpace and
  LineTerminator set. Every property proved about the flow depends only on
  "the trimmed text is empty exactly when every character is white space".
- `flow.dfy` (module `Flow`): the state record. It holds `stage`,
  `boothNumber`, `isAnimating` and `introProgress`, plus the runtime state they
  depend on: the clock `now` (milliseconds since mount) and the queue of
  pending `setTimeout` callbacks. The module also has:
  - `setStage` followed by the re-run of the two `[stage]` effects (cleanup of
    the old stage's effect, timers of the new stage's effect);
  - the two named handlers and the timer callbacks;
  - time passing (`AdvanceTo`: every due callback fires, earliest first, ties
    in scheduling order);
  - `Step`, which applies one event, and `Run`, which applies a sequence of
    events. A user event applies only if its control is rendered in the
    current stage: the intro screen has no controls, and the form's field,
    button and back button exist only on the booth-entry screen.
- `views.dfy` (module `Views`): the derived values in the markup. These are
  the continue button's `disabled` flag, the options heading, and the intro
  container's and letters' visibility conditions and delays.
- `schedule.dfy` (module `Schedule`): the intro schedule as a function of time.
  It includes the proof that a component left alone follows it exactly.
- `properties.dfy` (module `Properties`): what holds for every event and every
  run from mount. The main result is an invariant of all reachable states.
- `app.dfy` (module `Component`): the component as a class. Its fields are the
  state variables, and its methods are the handlers and timer callbacks,
  assigning the fields step by step. Each method is proved to produce the
  state that the matching `Flow` function gives, so the lemmas of `Schedule`
  and `Properties` apply to the object.

Two details follow the code rather than a looser reading of it:
- The intro effect's cleanup (src/App.js:28-33) clears only its four timers.
  The nested timeout that switches to the welcome stage (src/App.js:25) is
  never cleared, and the model keeps it (`IntroCleanupKeepsWelcomeSwitch`).
- The booth text is stored and shown as typed, untrimmed. Only the guard on
  submission, the `disabled` flag and the button's class choice
  (src/App.js:253) trim it.

## Model

| member | source | states |
|---|---|---|
| JsString.TrimStartSpec | src/App.js:60 | the removed front is all white space, and the kept suffix does not start with white space |
| JsString.TrimEndSpec | src/App.js:60 | the removed back is all white space, and the kept prefix does not end with white space |
| JsString.Trim | src/App.js:60 | `trim()` is empty exactly when the text is all white space; otherwise it neither starts nor ends with white space |
| Views.ContinueDisabled | src/App.js:251 | the continue button is disabled exactly when the booth text is all white space, the empty text included |
| Views.OptionsHeaderInjective | src/App.js:293 | different booth texts give different headings, so the heading's text holds the booth text verbatim, untrimmed |
| Views.LettersLeftToRight | src/App.js:87-96 | while shown, the seven letters of "Welcome" come in left to right, the last within 720 ms |
| Flow.ClearSpec | src/App.js:28-33 | an effect's cleanup removes exactly the timers that effect run scheduled and keeps every other timer |
| Flow.SetStage | src/App.js:11-45 | a stage change alters only the stage and the pending timers; setting the current stage again changes nothing |
| Flow.EarliestSpec | src/App.js:14-26 | the next callback to run has the smallest due time and was scheduled first among those due then |
| Flow.Fire | src/App.js:14-42 | running a callback moves the clock forward, keeps the booth text and shrinks the timer queue's measure |
| Flow.AdvanceTo | src/App.js:11-45 | after waiting until `t` the clock reads `t` (or stays if already later) and the booth text is kept |
| Flow.AdvanceSpec | src/App.js:11-45 | after waiting until `t`, every callback still pending is due after `t` |
| Schedule.FireIdle | src/App.js:14-26 | in the untouched component the first pending timer fires next, and firing it gives the scheduled state at its due time |
| Schedule.AdvanceIdle | src/App.js:11-45 | waiting from any point of the untouched run reaches the scheduled state of the later time |
| Schedule.IdleFromMount | src/App.js:5-45 | left alone, progress is 0, 1, 2, 3, 4 from 0, 300, 1200, 2200 and 3500 ms; the stage is intro before 4500 ms and welcome from then on; the animation ends at 6500 ms and not before |
| Properties.SubmitIffNotBlank | src/App.js:59-63 | continue moves booth entry to options exactly when the text is not all white space; otherwise nothing changes; text, animation flag, progress and clock are always kept |
| Properties.EnterIsContinue | src/App.js:65-69 | a key press is continue when the key is "Enter" and changes nothing for any other key |
| Properties.DisabledIffSubmitIdle | src/App.js:251 | the button is disabled exactly when `handleBoothSubmit` (line 60) would change nothing |
| Properties.TypingReplacesBooth | src/App.js:240 | typing replaces the booth text with the field's value and changes nothing else |
| Properties.AccessOrdersOpensBoothEntry | src/App.js:186 | "Access Your Orders" always opens booth entry, keeps the text, the animation flag and the progress, and cancels the pending settle timer |
| Properties.BackToWelcomeKeepsBooth | src/App.js:267 | back from booth entry goes to welcome; text, flag and progress are kept; a new settle timer is due 2000 ms later |
| Properties.ChangeBoothKeepsBooth | src/App.js:343 | back from the options goes to booth entry with text, flag and progress kept |
| Properties.IntroCleanupKeepsWelcomeSwitch | src/App.js:23-33 | the intro cleanup does not cancel the nested timeout that switches to welcome |
| Properties.IntroScreenTimeline | src/App.js:79-96 | on the schedule, the intro container appears at 300 ms and fades from 3500 ms; the letters are shown from 1200 ms until 3500 ms |
| Properties.AdvanceStage | src/App.js:25 | time passing either keeps the stage or switches it to welcome |
| Properties.NeverBackToIntro | src/App.js:5 | no event, from any non-intro stage, sets the stage to intro |
| Properties.LeaveIntroOnlyByTimer | src/App.js:22-26 | the intro stage is left only by time passing, and only into welcome |
| Properties.RunNeverBackToIntro | src/App.js:5 | once the intro is left, no sequence of events returns to it |
| Properties.AdvanceKeepsSettled | src/App.js:38-45 | once the animation flag is false, waiting keeps it false |
| Properties.AnimationNeverRestarts | src/App.js:7 | no event sets the animation flag back to true, re-entering welcome included |
| Properties.IdleInv | src/App.js:5-45 | every state of the untouched run satisfies the reachable-state invariant |
| Properties.AdvancePreservesInv | src/App.js:11-45 | waiting preserves the invariant |
| Properties.StepPreservesInv | src/App.js:5-352 | every event preserves the invariant and never moves the clock back |
| Properties.RunPreservesInv | src/App.js:5-352 | every sequence of events preserves the invariant |
| Properties.ReachableFollowsSchedule | src/App.js:11-45 | whatever the user does, progress is the scheduled one for the elapsed time, the stage is intro exactly before 4500 ms, and the animation never ends before 6500 ms |
| Properties.ProgressNeverDecreases | src/App.js:14-24 | from any reachable state, no event lowers the intro progress |
| Properties.AnimationStopsOnlyOnWelcome | src/App.js:38-45 | the animation flag turns false only by waiting, on the welcome stage, at 6500 ms or later |
| Properties.WelcomeSettles | src/App.js:38-45 | on the welcome stage while animating, one settle timer is pending, due within 2000 ms; waiting turns the flag false exactly when it reaches that timer |
| Properties.ReentrySettles | src/App.js:38-45 | back to welcome from booth entry while animating, the flag falls exactly 2000 ms after the return: still true before, false from then on |
| Properties.ReachableLetterDelay | src/App.js:87-96 | whatever the user does, each letter is delayed 120 ms per position exactly while 1200 ms <= time since mount < 3500 ms, and 0 otherwise |
| Properties.EnterBoothFromWelcome | src/App.js:186-343 | from welcome: open booth entry, type non-blank text and continue to reach options headed "Booth " plus the text; back restores booth entry with the text |
| Properties.WalkFrom | src/App.js:5-343 | the walk-through from any state that reaches welcome by waiting |
| Properties.Walkthrough | src/App.js:5-343 | mount, wait at least 4500 ms, open booth entry, type non-blank text such as "A-123", continue: options headed "Booth A-123"; back: booth entry still holds "A-123" |
| Component.App.constructor | src/App.js:4-14 | mounting gives the initial state: intro, empty text, animating, progress 0, the four intro timers |
| Component.App.SetStage | src/App.js:11-45 | `setStage` with the effect cleanup and re-run, equal to `Flow.SetStage` |
| Component.App.AccessOrders | src/App.js:186 | the button handler sets the stage to booth entry |
| Component.App.ChangeBoothNumber | src/App.js:240 | `onChange` replaces the booth text and nothing else |
| Component.App.HandleBoothSubmit | src/App.js:59-63 | equal to `Flow.SubmitBooth`, whose behaviour `SubmitIffNotBlank` states |
| Component.App.HandleKeyPress | src/App.js:65-69 | equal to `Flow.PressKey`, whose behaviour `EnterIsContinue` states |
| Component.App.BackToWelcome | src/App.js:267 | the back handler sets the stage to welcome |
| Component.App.ChangeBooth | src/App.js:343 | the back handler sets the stage to booth entry |
| Component.App.FireNextTimer | src/App.js:14-42 | runs the next pending callback (progress update, welcome switch or settle) exactly as `Flow.Fire` |
| Component.App.Wait | src/App.js:11-45 | runs every callback due within `ms` milliseconds, in order, exactly as `Flow.AdvanceTo` |
| Component.App.Handle | src/App.js:72-352 | one event on a rendered control, exactly as `Flow.Step` |

## Left out

- Rendering: the JSX markup, Tailwind class strings, inline styles and the `<style jsx>` keyframes (src/App.js:112-130). Only the conditions that choose between class strings are modelled.
- Views.IntroLeaving: from progress 4 the intro container carries both `opacity-100` and `opacity-0`. The model records which classes are present, not which one the stylesheet lets win.
- The `ExpoLogo` remote image and the lucide-react icons. They are foreign assets and components with no state.
- The "Orders" and "Checklist" cards (src/App.js:302-337). They have no handlers, so they have no behaviour.
- Real `setTimeout`/`clearTimeout`. Timers are a queue of due times. Callbacks run in due order, ties in scheduling order, each exactly at its due time or at once if already late. React re-renders and runs effects within the same millisecond as the state change.
- Flow.Clear: cleanup removes timers by which effect run they belong to, not by timer id. These are the same here, because each effect run is cleaned up before the next one schedules.
- Unmounting. There is no unmount event, so the cleanup that unmounting would trigger is not modelled.
- JsString.Trim: works on Unicode scalar values, not JavaScript's UTF-16 code units. The white-space set is the ECMAScript one for current Unicode.
- Component.App: the class has no object invariant. Its handlers are modelled as written, callable in any stage. The restriction to controls that are on screen, and the reachable-state invariant, live in `Flow.Step` and `Properties.Inv`, which `App.Handle` follows.

