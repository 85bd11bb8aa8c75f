# Doragram route tracker and mode switching, in Dafny

Doragram opens Instagram in an in-app browser and injects a script,
`tweakInstagram`, into the page. The script keeps a small state machine
in its closure:

- the page the user is on, classified from the URL path with a
  first-match-wins rule list, with repeated paths ignored;
- the two overlay images delivered by a `message` event;
- whether the overlay has been rendered for the current path;
- a countdown of clicks on the overlay image. At zero the countdown asks
  the host to enter "procrastination mode".

On the host side, listeners on the browser's `loadstop`, `exit` and
`message` events switch that mode on and off. They inject the script or
show a one-time welcome alert. The alert's shown-once flag lives in local
storage. The mode flags themselves are module variables of
dist/common.js with setters and getters.

The project models these parts:

- `values.dfy`: `Option` and the JavaScript truthiness of a string that may
  be null.
- `routes.dfy` (module `Routes`): the `Pages` table, the prefix and substring
  tests, the match chain of `updateActivePage` (`Classify`), and a
  reference first-match classifier (`FirstMatch`) proved equal to it.
- `tracker.dfy` (module `Tracker`): the closure variables as a `State`
  value. Each handler is a function of the state. Whole event traces are
  `Run`. Lemmas cover the debounce, reclassification, the overlay gate,
  the image slots, the click countdown and the slot invariant.
- `page.dfy` (module `InstagramPage`): class `InstagramTweak`, whose fields
  are the closure variables. Each handler is a method that updates them in
  place. Its `ensures` ties the new fields to the matching `Tracker`
  function.
- `common.dfy` (module `Common`): class `ModeFlags`, the three module
  variables of dist/common.js with their setters and getters.
- `host.dfy` (module `Host`): the browser listeners as `HostStep`, with
  their trace `HostRun` and class `HostSession`, plus the proof that the
  welcome alert is shown at most once between two `message` events.

Signals from the environment are parameters or events:

- The path from `location.pathname` is a `path` argument.
- Every navigation source calls the same handler: patched
  `pushState`/`replaceState` and `popstate`. They are all the
  `Navigate(path)` event.
- A MutationObserver callback is `Mutation(sectionFound)`. The flag says
  whether the document holds a feed `section`.
- One tick of the `waitForImages` interval is `ImagesPolled`.
- The firing of the five-minute timer is `LimitReached`.

`waitForImages` first polls only after its 50 ms interval. So every overlay
attempt that passes the gate and finds a section suspends. The model
counts these suspended renders (`pendingRenders`), and a later poll
resumes one of them once both images are present. That resumption sets
`imagesRendered` (dist/instagram.js:204).

## Model

| member | source | states |
|---|---|---|
| `Routes.Description` | dist/instagram.js:19-26 | every fixed page's description is an absolute path starting with "/"; the own-account page's description is the injected account |
| `Routes.RuleOf` | dist/instagram.js:49-58 | each page is tested against its own description: by equality only for the root, by substring only for the own account, by prefix for the rest |
| `Routes.Classify` | dist/instagram.js:49-60 | the root path always yields Main; whenever the page changes, the new page's own rule matches the path |
| `Routes.FirstMatch` | dist/instagram.js:49-60 | reference classifier: a returned page is in the list and its rule matches; no result means no page in the list matches |
| `Routes.ClassifyIsFirstMatch` | dist/instagram.js:49-60 | the match chain equals the first match over the order root, explore, reels, direct, accounts/edit, account, and keeps the previous page when nothing matches |
| `Routes.ClassifyFirstRuleWins` | dist/instagram.js:49-59 | if rule i matches and no earlier rule does, the path selects page i |
| `Routes.ClassifyNoMatchKeepsPrevious` | dist/instagram.js:49-60 | a path no rule matches leaves the current page as it was (no final else) |
| `Routes.IncludesIff` | dist/instagram.js:58 | the substring test used for the account holds exactly when some index of the path starts an occurrence of the account |
| `Routes.NotIncludedWithoutFirstChar` | dist/instagram.js:58 | a non-empty account whose first character is absent from the path is not found in it |
| `Routes.EmptyAccountNeverKeepsPrevious` | dist/instagram.js:25 | with an empty account name the own-account rule matches every path, so the previous page never survives a new path |
| `Routes.ExploreBeforeReels` | dist/instagram.js:49-53 | "/explore/reels" and "/explore/suggested" yield Explore, and "/reels/123" yields Reels |
| `Routes.OwnAccountAndFallback` | dist/instagram.js:58-60 | with account "jdoe", "/jdoe/" yields the own-account page, and "/some/unrelated/path" keeps Reels |
| `Tracker.Init` | dist/instagram.js:28-35 | initial state: Main, no last path, 20 clicks, both image slots empty, not rendered, nothing suspended |
| `Tracker.ImagesReady` | dist/instagram.js:181 | the polled condition implies both image slots hold a value |
| `Tracker.KeepDomUntouched` | dist/instagram.js:119-126 | on the main, explore and reels pages the gate holds exactly when the images are rendered |
| `Tracker.ClickOutcome` | dist/instagram.js:250-267 | a warning carries the lowered counter, the number the alert shows |
| `Tracker.Observe` | dist/instagram.js:42-61 | preserves the state invariant (slots paired, counter at most 20) and keeps the page in agreement with the last path |
| `Tracker.Receive` | dist/instagram.js:100-111 | preserves the state invariant: both slots are filled together, with truthy values |
| `Tracker.Render` | dist/instagram.js:192-202 | preserves the state invariant |
| `Tracker.Poll` | dist/instagram.js:178-187 | preserves the state invariant |
| `Tracker.Click` | dist/instagram.js:248-268 | preserves the state invariant: the counter never rises above 20 |
| `Tracker.Step` | dist/instagram.js:42-268 | every event of the injected script preserves the state invariant and the agreement of page and last path |
| `Tracker.ClassifySettles` | dist/instagram.js:46-60 | classifying a path again keeps the page the first classification chose |
| `Tracker.RunPreservesTracked` | dist/instagram.js:46-60 | every trace from a state whose page agrees with its last path ends in such a state |
| `Tracker.RootIsAlwaysMain` | dist/instagram.js:43-49 | after any trace from a fresh script, observing "/" yields Main, also when "/" was already the last path |
| `Tracker.RunPreservesValid` | dist/instagram.js:28-35 | every event trace from a valid state ends in a valid state |
| `Tracker.ObserveDebounces` | dist/instagram.js:43-44 | the last path seen again changes nothing, and observing a path twice equals observing it once |
| `Tracker.ObserveNewPath` | dist/instagram.js:46-60 | a new path becomes the last path and clears the rendered flag whatever page it maps to; the page is the first match or the previous page; nothing else changes |
| `Tracker.ExploreThenReels` | dist/instagram.js:42-61 | "/explore/suggested" yields Explore; "/reels/123" right after yields Reels and clears the rendered flag again |
| `Tracker.RenderGate` | dist/instagram.js:192-202 | when the gate holds the overlay routine changes nothing; otherwise, with a section, one more render is suspended |
| `Tracker.MessageFillsBothSlotsOrNone` | dist/instagram.js:100-111 | a message sets both slots together, and only when both fields are truthy and nothing is rendered; otherwise the state is unchanged |
| `Tracker.RenderedOnlyByResume` | dist/instagram.js:204 | the rendered flag is only ever set by a suspended render resuming with both images present |
| `Tracker.RenderedUntilNewPath` | dist/instagram.js:42-47 | once rendered, until a path different from the last one is observed, every overlay attempt is refused by the gate: no new render starts |
| `Tracker.TwoRendersOnOnePath` | dist/instagram.js:192-204 | two attempts made before the images arrive both suspend and both resume on the same path |
| `Tracker.PendingRenderOutlivesRouteChange` | dist/instagram.js:178-204 | a render suspended on the main page resumes after navigating to "/direct": the overlay lands on the inbox, a page the gate excludes |
| `Tracker.ClickThresholds` | dist/instagram.js:250-267 | a click activates exactly when the lowered counter is at most 0; it warns exactly for 1 to 5 remaining, never for 0 |
| `Tracker.ClickCountdown` | dist/instagram.js:249 | in any trace, a click's outcome is decided by the start counter minus the number of clicks so far: each click lowers it by exactly one and nothing else touches it |
| `Tracker.FreshClicks` | dist/instagram.js:31 | from a fresh script, the n-th click activates exactly when n >= 20 and warns exactly for n from 15 to 19 |
| `InstagramPage.InstagramTweak.constructor` | dist/instagram.js:28-35 | the fields start as the initial state, with the injected account |
| `InstagramPage.InstagramTweak.UpdateActivePage` | dist/instagram.js:42-61 | the new fields are `Observe` of the old ones; a repeated path leaves the object unchanged; "/" yields Main; both invariants are kept |
| `InstagramPage.InstagramTweak.OnMessage` | dist/instagram.js:100-111 | the new fields are `Receive` of the old ones; the invariant is kept |
| `InstagramPage.InstagramTweak.ReplaceMainSectionWithDora` | dist/instagram.js:192-202 | the new fields and outcome are `Render` of the old ones; when the gate holds nothing changes and the outcome is Untouched |
| `InstagramPage.InstagramTweak.OnImagesPolled` | dist/instagram.js:178-187 | the new fields are `Poll` of the old ones; a resumed render leaves the images marked rendered |
| `InstagramPage.InstagramTweak.ActivateProcrastinationModeIfReady` | dist/instagram.js:248-268 | the counter drops by exactly one, activation happens exactly when it reaches 0 or below, and the event is `Click` of the old fields |
| `Common.ModeFlags.constructor` | dist/common.js:5-7 | device not ready, no message, procrastination mode inactive |
| `Common.ModeFlags.SetDeviceReady` | dist/common.js:9 | sets the device flag and leaves the message and the mode alone |
| `Common.ModeFlags.GetDeviceReady` | dist/common.js:10 | returns the stored device flag |
| `Common.ModeFlags.SetMessage` | dist/common.js:12 | sets the message and leaves the device flag and the mode alone |
| `Common.ModeFlags.GetMessage` | dist/common.js:13 | returns the stored message |
| `Common.ModeFlags.ActivateProcrastinationMode` | dist/common.js:15 | afterwards the mode is active, whatever it was (idempotent); the other flags are unchanged |
| `Common.ModeFlags.DeactivateProcrastinationMode` | dist/common.js:16 | afterwards the mode is inactive, whatever it was (idempotent); the other flags are unchanged |
| `Common.ModeFlags.IsProcrastinationModeActive` | dist/common.js:17 | returns the stored mode |
| `Common.ModeFlags.ReadyToLaunch` | dist/instagram.js:322 | launching needs the device flag set and a message that is neither null nor empty |
| `Common.SetterScenario` | dist/common.js:9-17 | in one fixed call order (set device flag, activate twice, set message, deactivate twice) each getter returns its own setter's value and repeated activation or deactivation reads as a single one |
| `Host.ProcrastinationHandling` | dist/instagram.js:330-353 | keeps the mode; the welcome alert is shown exactly when the mode is active and the flag is not set; while active, the flag is set afterwards |
| `Host.HostStep` | dist/instagram.js:303-315 | scripts are injected exactly on `loadstop` while the mode is inactive; only `exit` and `message` change the mode; only `message` clears the alert-shown flag |
| `Host.ExitAndMessage` | dist/instagram.js:311-315 | `exit` always deactivates and keeps the flag; `message` always activates and clears it, so the next `loadstop` welcomes with a 300000 ms close timer |
| `Host.WelcomeNeedsReset` | dist/instagram.js:376-386 | once the alert-shown flag is set, a later welcome alert is preceded by a `message` event |
| `Host.WelcomeAtMostOnce` | dist/instagram.js:335-352 | any two welcome alerts in a trace have a `message` event strictly between them |
| `Host.HostSession.constructor` | dist/instagram.js:291-301 | the session starts once device and message are ready, with the shared mode flags and the stored alert flag |
| `Host.HostSession.HandleProcrastinationMode` | dist/instagram.js:330-353 | the new state and action are `ProcrastinationHandling` of the old state |
| `Host.HostSession.OnLoadStop` | dist/instagram.js:303-309 | the new state and action are the `loadstop` step; the scripts are injected exactly when the mode is inactive |
| `Host.HostSession.OnExit` | dist/instagram.js:311 | the new state is the `exit` step; device flag and message unchanged |
| `Host.HostSession.OnMessage` | dist/instagram.js:312-315 | the new state is the `message` step; device flag and message unchanged |
| `Host.HostSession.OnLimitReached` | dist/instagram.js:340-349 | the browser is closed exactly when the mode is still active; nothing changes |

## Left out

- DOM work is not modelled: building the wrapper and image, hiding and
  removing the feed section, decoding, the fade-in, and the resize
  listeners (dist/instagram.js:131-173, 195-239). Only the `section` lookup
  survives, as the `sectionFound` argument.
- The patching of `history.pushState`/`replaceState`, the `popstate`
  listener and the MutationObserver (dist/instagram.js:75-87, 278-281)
  appear only as the events they raise.
- `waitForImages` polling is the `ImagesPolled` event. Each event resumes
  one suspended render. The 50 ms timing is not modelled.
- `waitForDeviceAndMessage` (dist/instagram.js:321-325) is the requires
  clause of `HostSession`'s constructor (`ReadyToLaunch`).
- Host calls are reduced to the actions they stand for:
  - opening the in-app browser happens once per session, in
    `loadInstagram`; it is the `HostSession` constructor;
  - the three `executeScript` calls of `injectScripts`, made on every
    `loadstop` while the mode is inactive, are the `InjectScripts` action;
    the account text and message payload they inject are not modelled
    (the page side takes the account as the `InstagramTweak` constructor
    argument);
  - `postMessage` to the host and `location.reload` are the `Activated`
    click event;
  - `alert` is the `Warning`, `WelcomeAlert` and `CloseBrowser` actions;
  - `ref.close()` is `CloseBrowser`; the `exit` event it raises is a
    separate `Exit` event.
- Local storage holds the alert flag as a string. It is a boolean field
  here. Its value at the start of a session is a constructor argument,
  because storage outlives sessions.
- Message data is modelled only as its `image` and `background` fields,
  each a string or absent. Other JSON shapes and parsing are not modelled.
- The setters of dist/common.js accept any JavaScript value. The model
  types the device flag as a boolean and the message as an optional string.
- Account storage, image loading and the random choice of an image
  (dist/common.js:21-66) are asynchronous I/O and are not modelled.
  dist/app.js, dist/game.js, dist/main.js and dist/modal.js are not part
  of this model.
