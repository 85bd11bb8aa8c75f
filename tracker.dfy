/** The state machine inside `tweakInstagram` (dist/instagram.js), as pure
    functions over a snapshot of its closure variables. The class in
    page.dfy updates the same variables in place and is specified by these
    functions; the lemmas below state what the functions guarantee, one
    event at a time and over whole event traces. */
module Tracker {
  import opened Values
  import opened Routes

  /** Clicks on the overlay image needed to request procrastination mode. */
  const InitialRequiredClicks: int := 20

  /** Remaining clicks at or below which each click warns the user. */
  const WarningThreshold: int := 5

  /** The closure variables of one injected `tweakInstagram`, plus the number
      of overlay renders suspended in `waitForImages`. */
  datatype State = State(
    currentPage: Page,
    lastPath: Option<string>,
    imagesRendered: bool,
    randomImage: Option<string>,
    backgroundImage: Option<string>,
    requiredClicks: int,
    pendingRenders: nat)

  /** The values the closure starts with. */
  function Init(): (s: State)
    ensures s.currentPage == Main && s.lastPath == None && !s.imagesRendered
    ensures s.randomImage == None && s.backgroundImage == None
    ensures s.requiredClicks == 20 && s.pendingRenders == 0
  {
    State(Main, None, false, None, None, InitialRequiredClicks, 0)
  }

  /** The condition `waitForImages` polls for. */
  predicate ImagesReady(s: State)
    ensures ImagesReady(s) ==> s.randomImage != None && s.backgroundImage != None
  {
    Truthy(s.randomImage) && Truthy(s.backgroundImage)
  }

  /** The two image slots are empty together or filled together, and the
      click counter never exceeds its start value. */
  predicate Valid(s: State)
  {
    && ((s.randomImage == None && s.backgroundImage == None) || ImagesReady(s))
    && s.requiredClicks <= InitialRequiredClicks
  }

  /** The page agrees with the last path seen: classifying that path again
      would keep the current page. `updateActivePage` is the only writer of
      both variables, and it writes them together. */
  predicate Tracked(s: State, account: string)
  {
    s.lastPath.Some? ==> Classify(s.lastPath.value, account, s.currentPage) == s.currentPage
  }

  /** `updateActivePage`: a repeated path is ignored; a new one is recorded,
      marks the overlay as not rendered and is classified. */
  function Observe(s: State, account: string, path: string): (r: State)
    ensures Valid(s) ==> Valid(r)
    ensures Tracked(s, account) ==> Tracked(r, account)
  {
    ClassifySettles(path, account, s.currentPage);
    if s.lastPath == Some(path) then s
    else s.(lastPath := Some(path), imagesRendered := false,
            currentPage := Classify(path, account, s.currentPage))
  }

  /** The "message" listener: both images are stored, only when both are
      truthy and nothing has been rendered yet. */
  function Receive(s: State, image: Option<string>, background: Option<string>): (r: State)
    ensures Valid(s) ==> Valid(r)
  {
    if s.imagesRendered then s
    else if Truthy(image) && Truthy(background) then
      s.(randomImage := image, backgroundImage := background, imagesRendered := false)
    else s
  }

  /** `shallKeepDomUntouched`. On the feed pages (main, explore, reels) only
      the rendered flag decides. */
  predicate KeepDomUntouched(s: State)
    ensures s.currentPage in {Main, Explore, Reels} ==> (KeepDomUntouched(s) <==> s.imagesRendered)
  {
    s.currentPage == Inbox || s.currentPage == EditAccount || s.currentPage == MyAccount
    || s.imagesRendered
  }

  /** How far one call of `replaceMainSectionWithDora` got before returning
      or suspending. */
  datatype RenderOutcome = Untouched | NoSection | Waiting

  /** The synchronous part of `replaceMainSectionWithDora`: the gate, the
      search for the feed section, then the suspension in `waitForImages`
      (whose first poll comes only after an interval, so every call that
      passes the gate and finds a section suspends). */
  function Render(s: State, sectionFound: bool): (r: (State, RenderOutcome))
    ensures Valid(s) ==> Valid(r.0)
  {
    if KeepDomUntouched(s) then (s, Untouched)
    else if !sectionFound then (s, NoSection)
    else (s.(pendingRenders := s.pendingRenders + 1), Waiting)
  }

  /** One poll of `waitForImages`: when a render is suspended and both images
      are present, it resumes and marks the images as rendered. */
  function Poll(s: State): (r: (State, bool))
    ensures Valid(s) ==> Valid(r.0)
  {
    if s.pendingRenders > 0 && ImagesReady(s) then
      (s.(pendingRenders := s.pendingRenders - 1, imagesRendered := true), true)
    else (s, false)
  }

  /** What a click on the overlay image does once the counter is lowered. */
  datatype ClickEvent =
    | Activated        // procrastination mode is requested and the page reloads
    | Warning(remaining: int)
    | Silent

  /** The branches of `activateProcrastinationModeIfReady` for the lowered
      counter `remaining`. */
  function ClickOutcome(remaining: int): (e: ClickEvent)
    ensures e.Warning? ==> e.remaining == remaining
  {
    if remaining <= 0 then Activated
    else if remaining <= WarningThreshold && remaining >= 0 then Warning(remaining)
    else Silent
  }

  /** `activateProcrastinationModeIfReady`. */
  function Click(s: State): (r: (State, ClickEvent))
    ensures Valid(s) ==> Valid(r.0)
  {
    var remaining := s.requiredClicks - 1;
    (s.(requiredClicks := remaining), ClickOutcome(remaining))
  }

  /** The signals the injected script reacts to. `Navigate` stands for every
      source that calls `updateActivePage` (patched `pushState` and
      `replaceState`, `popstate`) with the current path; `Mutation` is one
      callback of the MutationObserver. */
  datatype Event =
    | Navigate(path: string)
    | Message(image: Option<string>, background: Option<string>)
    | Mutation(sectionFound: bool)
    | ImagesPolled
    | ImageClicked

  datatype Output =
    | Observed
    | MessageHandled
    | Overlay(outcome: RenderOutcome)
    | Polled(resumed: bool)
    | Clicked(event: ClickEvent)

  function Step(s: State, account: string, e: Event): (r: (State, Output))
    ensures Valid(s) ==> Valid(r.0)
    ensures Tracked(s, account) ==> Tracked(r.0, account)
  {
    match e
    case Navigate(path) => (Observe(s, account, path), Observed)
    case Message(image, background) => (Receive(s, image, background), MessageHandled)
    case Mutation(found) => var (t, o) := Render(s, found); (t, Overlay(o))
    case ImagesPolled => var (t, b) := Poll(s); (t, Polled(b))
    case ImageClicked => var (t, c) := Click(s); (t, Clicked(c))
  }

  /** Runs `events` in order from `s`: the final state and one output per event. */
  function Run(s: State, account: string, events: seq<Event>): (r: (State, seq<Output>))
    ensures |r.1| == |events|
    decreases |events|
  {
    if events == [] then (s, [])
    else
      var (t, o) := Step(s, account, events[0]);
      var (u, os) := Run(t, account, events[1..]);
      (u, [o] + os)
  }

  /** Number of clicks among `events`. */
  function Clicks(events: seq<Event>): (n: nat)
    ensures n <= |events|
  {
    if events == [] then 0
    else (if events[0] == ImageClicked then 1 else 0) + Clicks(events[1..])
  }

  // ---- Route tracking ----

  /** Observing the last path again changes nothing; observing twice in a row
      is the same as observing once. */
  lemma ObserveDebounces(s: State, account: string, path: string)
    ensures s.lastPath == Some(path) ==> Observe(s, account, path) == s
    ensures Observe(Observe(s, account, path), account, path) == Observe(s, account, path)
  {
  }

  /** A new path is recorded, clears `imagesRendered` whatever page it maps
      to, selects the page of the first matching rule (or keeps the page),
      and touches nothing else. */
  lemma ObserveNewPath(s: State, account: string, path: string)
    requires s.lastPath != Some(path)
    ensures var r := Observe(s, account, path);
      && r.lastPath == Some(path) && !r.imagesRendered
      && r.currentPage == (match FirstMatch(Precedence, account, path)
                           case None => s.currentPage
                           case Some(p) => p)
      && r.randomImage == s.randomImage && r.backgroundImage == s.backgroundImage
      && r.requiredClicks == s.requiredClicks && r.pendingRenders == s.pendingRenders
  {
    ClassifyIsFirstMatch(path, account, s.currentPage);
  }

  /** "/explore/suggested" selects Explore; "/reels/123"
      right after selects Reels and is the call that marks the overlay stale
      again once it had been rendered. */
  lemma ExploreThenReels(s: State, account: string)
    requires s.lastPath != Some("/explore/suggested")
    ensures var a := Observe(s, account, "/explore/suggested");
      && a.currentPage == Explore
      && var b := Observe(a.(imagesRendered := true), account, "/reels/123");
         b.currentPage == Reels && !b.imagesRendered
  {
    ExploreBeforeReels(account, s.currentPage);
    ExploreBeforeReels(account, Explore);
    assert "/reels/123" != "/explore/suggested";
  }

  /** Classifying a path a second time keeps the page the first time chose. */
  lemma ClassifySettles(path: string, account: string, previous: Page)
    ensures var p := Classify(path, account, previous);
      Classify(path, account, p) == p
  {
  }

  /** Every trace from a state whose page agrees with its last path ends in
      such a state. */
  lemma {:induction false} RunPreservesTracked(s: State, account: string, events: seq<Event>)
    requires Tracked(s, account)
    ensures Tracked(Run(s, account, events).0, account)
    decreases |events|
  {
    if events != [] {
      RunPreservesTracked(Step(s, account, events[0]).0, account, events[1..]);
    }
  }

  /** Observing the root path yields the main page, whatever happened before:
      the root path is either new, and classified as Main, or the last path
      seen, whose page is Main already. */
  lemma RootIsAlwaysMain(account: string, events: seq<Event>)
    ensures Observe(Run(Init(), account, events).0, account, "/").currentPage == Main
  {
    RunPreservesTracked(Init(), account, events);
  }

  // ---- Overlay gate and image slots ----

  /** When the gate holds the overlay routine changes nothing; otherwise it
      either finds no section or suspends one more render. */
  lemma RenderGate(s: State, sectionFound: bool)
    ensures KeepDomUntouched(s) ==> Render(s, sectionFound) == (s, Untouched)
    ensures !KeepDomUntouched(s) && sectionFound ==>
      Render(s, sectionFound) == (s.(pendingRenders := s.pendingRenders + 1), Waiting)
  {
  }

  /** A message fills both slots together, and only when both fields are
      truthy and no overlay has been rendered; otherwise it changes nothing. */
  lemma MessageFillsBothSlotsOrNone(s: State, image: Option<string>, background: Option<string>)
    ensures var r := Receive(s, image, background);
      if !s.imagesRendered && Truthy(image) && Truthy(background)
      then r == s.(randomImage := image, backgroundImage := background)
      else r == s
  {
  }

  /** Only a suspended render, resumed once both images are present, sets
      `imagesRendered`; every event leaves it alone or clears it otherwise. */
  lemma RenderedOnlyByResume(s: State, account: string, e: Event)
    requires !s.imagesRendered
    requires Step(s, account, e).0.imagesRendered
    ensures e == ImagesPolled && s.pendingRenders > 0 && ImagesReady(s)
  {
  }

  /** Once the images are rendered, no event except a navigation to a path
      different from the last one clears the flag, and every overlay attempt
      in between is refused by the gate: no new render is started before a
      new path. (Renders suspended before the flag was set still resume; see
      `TwoRendersOnOnePath`.) */
  lemma {:induction false} RenderedUntilNewPath(s: State, account: string, events: seq<Event>, j: nat)
    requires s.imagesRendered
    requires j < |events|
    requires forall k :: 0 <= k <= j ==> events[k].Navigate? ==> Some(events[k].path) == s.lastPath
    ensures events[j].Mutation? ==> Run(s, account, events).1[j] == Overlay(Untouched)
    decreases j
  {
    var (t, o) := Step(s, account, events[0]);
    assert t.imagesRendered && t.lastPath == s.lastPath;
    assert Run(s, account, events).1 == [o] + Run(t, account, events[1..]).1;
    if j > 0 {
      forall k | 0 <= k <= j - 1 && events[1..][k].Navigate?
        ensures Some(events[1..][k].path) == t.lastPath
      {
        assert events[1..][k] == events[k + 1];
      }
      RenderedUntilNewPath(t, account, events[1..], j - 1);
    }
  }

  /** A render suspended on one page is not cancelled by navigation: it can
      resume on the inbox, a page the gate keeps untouched. */
  lemma PendingRenderOutlivesRouteChange(account: string)
    ensures var r := Run(Init(), account,
      [Mutation(true), Navigate("/direct"), Message(Some("img"), Some("bg")), ImagesPolled]);
      r.1[3] == Polled(true) && r.0.currentPage == Inbox && r.0.imagesRendered
  {
    var s0 := Init();
    var s1 := Render(s0, true).0;
    assert s1.pendingRenders == 1;
    assert "/direct"[..7] == "/direct";
    NotStartsWithAt("/direct", "/explore", 1);
    NotStartsWithAt("/direct", "/reels", 1);
    var s2 := Observe(s1, account, "/direct");
    assert s2.currentPage == Inbox;
    var s3 := Receive(s2, Some("img"), Some("bg"));
    assert ImagesReady(s3) && s3.pendingRenders == 1;
    var evs := [Mutation(true), Navigate("/direct"), Message(Some("img"), Some("bg")), ImagesPolled];
    assert evs[1..][1..][1..][1..] == [];
  }

  /** Two overlay attempts made before the images arrive are both suspended,
      and both resume on the same path: the rendered flag stops new attempts,
      not those already waiting. */
  lemma TwoRendersOnOnePath(account: string)
    ensures var r := Run(Init(), account,
      [Mutation(true), Mutation(true), Message(Some("img"), Some("bg")), ImagesPolled, ImagesPolled]);
      r.1[3] == Polled(true) && r.1[4] == Polled(true) && r.0.lastPath == None
  {
  }

  // ---- Procrastination click counter ----

  /** Activation happens exactly when the lowered counter is at most zero;
      the warning shows exactly for 1 to 5 remaining clicks (the `>= 0` half
      of its test never decides anything, as zero activates first). */
  lemma ClickThresholds(remaining: int)
    ensures ClickOutcome(remaining) == Activated <==> remaining <= 0
    ensures ClickOutcome(remaining).Warning? <==> 1 <= remaining <= WarningThreshold
    ensures ClickOutcome(remaining) != Warning(0)
  {
  }

  /** The outcome of a click in a trace is decided by how many clicks the
      trace held up to and including it: each click lowers the counter by
      exactly one and nothing else touches it. */
  lemma {:induction false} ClickCountdown(s: State, account: string, events: seq<Event>, i: nat)
    requires i < |events| && events[i] == ImageClicked
    ensures Run(s, account, events).1[i]
         == Clicked(ClickOutcome(s.requiredClicks - Clicks(events[..i + 1])))
    decreases i
  {
    var (t, o) := Step(s, account, events[0]);
    assert Run(s, account, events).1 == [o] + Run(t, account, events[1..]).1;
    if i > 0 {
      ClickCountdown(t, account, events[1..], i - 1);
      assert events[..i + 1] == [events[0]] + events[1..][..i];
      assert t.requiredClicks == s.requiredClicks - (if events[0] == ImageClicked then 1 else 0);
    } else {
      assert events[..1] == [events[0]];
    }
  }

  /** From a freshly injected script, the n-th click activates procrastination
      mode exactly when n >= 20, and warns exactly for the 15th to 19th. */
  lemma FreshClicks(account: string, events: seq<Event>, i: nat)
    requires i < |events| && events[i] == ImageClicked
    ensures var n := Clicks(events[..i + 1]);
      var o := Run(Init(), account, events).1[i];
      && o.Clicked?
      && (o.event == Activated <==> n >= 20)
      && (o.event.Warning? <==> 15 <= n <= 19)
  {
    ClickCountdown(Init(), account, events, i);
    ClickThresholds(20 - Clicks(events[..i + 1]));
  }

  /** Every trace from a valid state keeps the state valid. */
  lemma {:induction false} RunPreservesValid(s: State, account: string, events: seq<Event>)
    requires Valid(s)
    ensures Valid(Run(s, account, events).0)
    decreases |events|
  {
    if events != [] {
      RunPreservesValid(Step(s, account, events[0]).0, account, events[1..]);
    }
  }
}
