/** The injected `tweakInstagram` closure (dist/instagram.js) as an object:
    its `let` variables are fields, its event handlers are methods that
    update them in place. Each method is specified by the matching function
    of the Tracker module applied to the snapshot of the fields. */
module InstagramPage {
  import opened Values
  import opened Routes
  import opened Tracker

  class InstagramTweak {
    /** `window._account`, injected by the host before the script runs. */
    const account: string

    var currentPage: Page
    var lastPath: Option<string>
    var procrastinationModeRequiredClicks: int
    var randomImage: Option<string>
    var backgroundImage: Option<string>
    var imagesRendered: bool
    /** Calls of `replaceMainSectionWithDora` suspended in `waitForImages`. */
    var pendingRenders: nat

    /** The fields as a Tracker state. */
    function Snapshot(): State
      reads this
    {
      State(currentPage, lastPath, imagesRendered, randomImage, backgroundImage,
            procrastinationModeRequiredClicks, pendingRenders)
    }

    constructor (account: string)
      ensures this.account == account
      ensures Snapshot() == Init() && Valid(Snapshot()) && Tracked(Snapshot(), account)
    {
      this.account := account;
      currentPage := Main;
      lastPath := None;
      procrastinationModeRequiredClicks := InitialRequiredClicks;
      randomImage := None;
      backgroundImage := None;
      imagesRendered := false;
      pendingRenders := 0;
    }

    /** `updateActivePage` for the current `location.pathname`. */
    method UpdateActivePage(path: string)
      modifies this
      ensures Snapshot() == Observe(old(Snapshot()), account, path)
      ensures old(lastPath) == Some(path) ==> unchanged(this)
      ensures path == "/" && Tracked(old(Snapshot()), account) ==> currentPage == Main
      ensures Valid(old(Snapshot())) ==> Valid(Snapshot())
      ensures Tracked(old(Snapshot()), account) ==> Tracked(Snapshot(), account)
    {
      if lastPath == Some(path) {
        return;
      }
      lastPath := Some(path);
      imagesRendered := false;
      currentPage := Classify(path, account, currentPage);
    }

    /** The "message" listener, given the `image` and `background` fields of
      the event's data. */
    method OnMessage(image: Option<string>, background: Option<string>)
      modifies this
      ensures Snapshot() == Receive(old(Snapshot()), image, background)
      ensures Valid(old(Snapshot())) ==> Valid(Snapshot())
    {
      if imagesRendered {
        return;
      }
      if Truthy(image) && Truthy(background) {
        randomImage := image;
        backgroundImage := background;
        imagesRendered := false;
      }
    }

    /** `replaceMainSectionWithDora` up to its suspension in `waitForImages`;
      `sectionFound` says whether the document holds a feed section. */
    method ReplaceMainSectionWithDora(sectionFound: bool) returns (outcome: RenderOutcome)
      modifies this
      ensures (Snapshot(), outcome) == Render(old(Snapshot()), sectionFound)
      ensures KeepDomUntouched(old(Snapshot())) ==> unchanged(this) && outcome == Untouched
      ensures Valid(old(Snapshot())) ==> Valid(Snapshot())
    {
      if KeepDomUntouched(Snapshot()) {
        return Untouched;
      }
      if !sectionFound {
        return NoSection;
      }
      pendingRenders := pendingRenders + 1;
      outcome := Waiting;
    }

    /** One tick of a `waitForImages` interval: a suspended render resumes
      when both images are present and marks them rendered (line 204). */
    method OnImagesPolled() returns (resumed: bool)
      modifies this
      ensures (Snapshot(), resumed) == Poll(old(Snapshot()))
      ensures resumed ==> imagesRendered
      ensures Valid(old(Snapshot())) ==> Valid(Snapshot())
    {
      resumed := pendingRenders > 0 && Truthy(randomImage) && Truthy(backgroundImage);
      if resumed {
        pendingRenders := pendingRenders - 1;
        imagesRendered := true;
      }
    }

    /** `activateProcrastinationModeIfReady`, run on each click on the image. */
    method ActivateProcrastinationModeIfReady() returns (event: ClickEvent)
      modifies this
      ensures (Snapshot(), event) == Click(old(Snapshot()))
      ensures procrastinationModeRequiredClicks == old(procrastinationModeRequiredClicks) - 1
      ensures event == Activated <==> procrastinationModeRequiredClicks <= 0
      ensures Valid(old(Snapshot())) ==> Valid(Snapshot())
    {
      procrastinationModeRequiredClicks := procrastinationModeRequiredClicks - 1;
      if procrastinationModeRequiredClicks <= 0 {
        return Activated;
      }
      if procrastinationModeRequiredClicks <= WarningThreshold
        && procrastinationModeRequiredClicks >= 0
      {
        return Warning(procrastinationModeRequiredClicks);
      }
      event := Silent;
    }
  }
}
