/**
 The application as one transition system: the session store, the current
 step, and the state of whichever page keeps its own (the products page's
 configuration dialog, the results page's viewer). Each user action is an
 `Event`; an event whose control is not on screen changes nothing.

 Changing the step mounts a different page, so the pages' own state starts
 afresh; staying on the same step keeps it.
 */
module AppFlow {
  import opened Types
  import opened AppContext
  import opened GeminiService
  import opened Catalog
  import opened FileUpload
  import opened Header
  import opened UploadPage
  import opened ProductsPage
  import opened ResultsPage

  datatype App = App(ctx: AppState, products: ProductsUI, viewer: Viewer)

  function Init(): App {
    App(InitialState(), InitialUI(), InitialViewer())
  }

  datatype Event =
    | StartExperience                               // the landing page's button
    | LogoClicked
    | NavClicked(item: NavItem)
    | BackClicked
    | FileChosen(slot: Slot, choice: FileChoice)    // a slot's file input, shown while the slot is empty
    | PhotoRemoved(slot: Slot)                      // a slot's remove button, shown while it holds a photo
    | ContinueClicked
    | ProductClicked(index: nat)                    // a catalog card
    | SizeClicked(j: nat)                           // a size button in the dialog
    | DialogClosed
    | ConfirmClicked
    | TryOnClicked(analysisReply: Remote<BodyAnalysis>, synthesisReply: Remote<Option<seq<Part>>>)
    | ZoomInClicked
    | ZoomOutClicked
    | CursorDown(at: Point)
    | CursorMoved(at: Point)
    | CursorReleased                               // mouse up or mouse leave
    | ModifyClicked
    | RestartClicked                                // the results page's guard

  /** Moves to `next`; a different step remounts the pages, so their own state starts afresh. */
  function Navigate(app: App, next: AppState): (r: App)
    ensures r.ctx == next
    ensures next.currentStep != app.ctx.currentStep ==> r.products == InitialUI() && r.viewer == InitialViewer()
    ensures next.currentStep == app.ctx.currentStep ==> r.products == app.products && r.viewer == app.viewer
  {
    if next.currentStep != app.ctx.currentStep then App(next, InitialUI(), InitialViewer())
    else app.(ctx := next)
  }

  function WithSession(app: App, s: TryOnSession): App {
    app.(ctx := app.ctx.(session := s))
  }

  predicate On(app: App, step: AppStep) {
    app.ctx.currentStep == step
  }

  /** Whether the results page shows its viewer rather than its restart guard. */
  predicate ViewerShown(app: App) {
    On(app, Results) && ShowsViewer(app.ctx.session)
  }

  /** Whether the products page shows its floating try-on bar. */
  predicate TryOnBarShown(app: App) {
    On(app, Products) && |app.ctx.session.selectedProducts| > 0 && app.products.configuring.None?
  }

  /**
   The page whose control raises `e`, or `None` for the header's controls,
   which are rendered on every step.
   */
  function PageOf(e: Event): Option<AppStep> {
    match e
    case StartExperience => Some(Landing)
    case LogoClicked => None
    case NavClicked(_) => None
    case BackClicked => None
    case FileChosen(_, _) => Some(Upload)
    case PhotoRemoved(_) => Some(Upload)
    case ContinueClicked => Some(Upload)
    case ProductClicked(_) => Some(Products)
    case SizeClicked(_) => Some(Products)
    case DialogClosed => Some(Products)
    case ConfirmClicked => Some(Products)
    case TryOnClicked(_, _) => Some(Products)
    case ZoomInClicked => Some(Results)
    case ZoomOutClicked => Some(Results)
    case CursorDown(_) => Some(Results)
    case CursorMoved(_) => Some(Results)
    case CursorReleased => Some(Results)
    case ModifyClicked => Some(Results)
    case RestartClicked => Some(Results)
  }

  /** One user action; each event is guarded by whether its control is rendered. */
  function Step(app: App, e: Event): App {
    var st := app.ctx;
    var s := st.session;
    match e
    case StartExperience =>
      if On(app, Landing) then Navigate(app, SetStep(st, Upload)) else app
    case LogoClicked => Navigate(app, ClickLogo(st))
    case NavClicked(item) => Navigate(app, ClickNav(st, item))
    case BackClicked =>
      if BackVisible(st.currentStep) then Navigate(app, ClickBack(st)) else app
    case FileChosen(slot, choice) =>
      if On(app, Upload) && !IsTruthyText(SlotValue(s, slot)) then WithSession(app, ChooseFile(s, slot, choice))
      else app
    case PhotoRemoved(slot) =>
      if On(app, Upload) && IsTruthyText(SlotValue(s, slot)) then WithSession(app, HandleRemove(s, slot))
      else app
    case ContinueClicked =>
      if On(app, Upload) then Navigate(app, Continue(st)) else app
    case ProductClicked(i) =>
      if On(app, Products) && app.products.configuring.None? && i < |AllProducts| then
        var p := AllProducts[i];
        assert |p.sizes| > 0 && |p.colors| > 0 by { OneColourEach(); }
        var r := HandleProductClick(s, app.products, p);
        WithSession(app, r.session).(products := r.ui)
      else app
    case SizeClicked(j) =>
      if On(app, Products) then app.(products := PickSize(app.products, j)) else app
    case DialogClosed =>
      if On(app, Products) then app.(products := CloseConfiguration(app.products)) else app
    case ConfirmClicked =>
      if On(app, Products) && app.products.configuring.Some? then
        var r := ConfirmSelection(s, app.products);
        WithSession(app, r.session).(products := r.ui)
      else app
    case TryOnClicked(ar, sr) =>
      if TryOnBarShown(app) then Navigate(app, ApplyTryOn(st, StartTryOn(s, ar, sr))) else app
    case ZoomInClicked =>
      if ViewerShown(app) then app.(viewer := AdjustZoom(app.viewer, ZoomStep)) else app
    case ZoomOutClicked =>
      if ViewerShown(app) then app.(viewer := AdjustZoom(app.viewer, -ZoomStep)) else app
    case CursorDown(p) =>
      if ViewerShown(app) then app.(viewer := MouseDown(app.viewer, p)) else app
    case CursorMoved(p) =>
      if ViewerShown(app) then app.(viewer := MouseMove(app.viewer, p)) else app
    case CursorReleased =>
      if ViewerShown(app) then app.(viewer := MouseUp(app.viewer)) else app
    case ModifyClicked =>
      if ViewerShown(app) then Navigate(app, ModifySession(st)) else app
    case RestartClicked =>
      if On(app, Results) && !ShowsViewer(s) then Navigate(app, ResetSession(st)) else app
  }

  function Run(app: App, events: seq<Event>): App
    decreases |events|
  {
    if |events| == 0 then app else Run(Step(app, events[0]), events[1..])
  }

  /**
   What holds in every state the application can reach: the session store's
   invariants, a result to show whenever the results step is current, the
   zoom within bounds, a configured size the garment offers, and fresh page
   state for the pages not on screen.
   */
  predicate Inv(app: App) {
    var s := app.ctx.session;
    && Synced(s)
    && ResultPaired(s)
    && (s.resultImage.Some? ==> IsTruthyText(s.resultImage))
    && (On(app, Results) ==> ShowsViewer(s))
    && ZoomInRange(app.viewer)
    && ConfiguredSizeOffered(app.products)
    && (!On(app, Products) ==> app.products == InitialUI())
    && (!On(app, Results) ==> app.viewer == InitialViewer())
  }

  lemma InitSatisfiesInv()
    ensures Inv(Init())
  {
    DefaultSessionSynced();
  }

  lemma StepKeepsInv(app: App, e: Event)
    requires Inv(app)
    ensures Inv(Step(app, e))
  {
    match e
    case StartExperience => NavigationKeepsInv(app, e);
    case LogoClicked => NavigationKeepsInv(app, e);
    case NavClicked(_) => NavigationKeepsInv(app, e);
    case BackClicked => NavigationKeepsInv(app, e);
    case ContinueClicked => NavigationKeepsInv(app, e);
    case ModifyClicked => NavigationKeepsInv(app, e);
    case RestartClicked => NavigationKeepsInv(app, e);
    case FileChosen(_, _) => PhotoEventsKeepInv(app, e);
    case PhotoRemoved(_) => PhotoEventsKeepInv(app, e);
    case ProductClicked(_) => ProductClickKeepsInv(app, e);
    case SizeClicked(_) => DialogEventsKeepInv(app, e);
    case DialogClosed => DialogEventsKeepInv(app, e);
    case ConfirmClicked => DialogEventsKeepInv(app, e);
    case TryOnClicked(ar, sr) =>
      if TryOnBarShown(app) {
        TryOnKeepsInv(app, ar, sr);
      }
    case ZoomInClicked => ViewerEventsKeepInv(app, e);
    case ZoomOutClicked => ViewerEventsKeepInv(app, e);
    case CursorDown(_) => ViewerEventsKeepInv(app, e);
    case CursorMoved(_) => ViewerEventsKeepInv(app, e);
    case CursorReleased => ViewerEventsKeepInv(app, e);
  }

  /** Events that only change the step keep the invariant. */
  lemma NavigationKeepsInv(app: App, e: Event)
    requires Inv(app)
    requires e.StartExperience? || e.LogoClicked? || e.NavClicked? || e.BackClicked?
          || e.ContinueClicked? || e.ModifyClicked? || e.RestartClicked?
    ensures Inv(Step(app, e))
  {
    if e.LogoClicked? || e.RestartClicked? {
      DefaultSessionSynced();
    }
  }

  /** The upload page's slot events keep the invariant. */
  lemma PhotoEventsKeepInv(app: App, e: Event)
    requires Inv(app)
    requires e.FileChosen? || e.PhotoRemoved?
    ensures Inv(Step(app, e))
  {
  }

  /** A click on a catalog card keeps the invariant. */
  lemma ProductClickKeepsInv(app: App, e: Event)
    requires Inv(app) && e.ProductClicked?
    ensures Inv(Step(app, e))
  {
    var s := app.ctx.session;
    var i := e.index;
    if On(app, Products) && app.products.configuring.None? && i < |AllProducts| {
      OneColourEach();
      if IsSelected(s, AllProducts[i].id) {
        RemoveProductKeepsSynced(s, AllProducts[i].id);
      }
    }
  }

  /** The configuration dialog's events keep the invariant. */
  lemma DialogEventsKeepInv(app: App, e: Event)
    requires Inv(app)
    requires e.SizeClicked? || e.DialogClosed? || e.ConfirmClicked?
    ensures Inv(Step(app, e))
  {
    if e.ConfirmClicked? && On(app, Products) && app.products.configuring.Some? {
      var ui := app.products;
      SelectProductKeepsSynced(app.ctx.session, ui.configuring.value, SelectedOption(ui.selectedSize, ui.selectedColor));
    }
  }

  /** The viewer's events keep the invariant. */
  lemma ViewerEventsKeepInv(app: App, e: Event)
    requires Inv(app)
    requires e.ZoomInClicked? || e.ZoomOutClicked? || e.CursorDown? || e.CursorMoved? || e.CursorReleased?
    ensures Inv(Step(app, e))
  {
  }

  lemma TryOnKeepsInv(app: App, ar: Remote<BodyAnalysis>, sr: Remote<Option<seq<Part>>>)
    requires Inv(app) && TryOnBarShown(app)
    ensures Inv(Step(app, TryOnClicked(ar, sr)))
  {
    var outcome := StartTryOn(app.ctx.session, ar, sr);
    if outcome.Succeeded? {
      assert ImageHeader <= outcome.image;
    }
    OutcomeKeepsInv(app, outcome);
    assert Step(app, TryOnClicked(ar, sr)) == Navigate(app, ApplyTryOn(app.ctx, outcome));
  }

  /** Storing any try-on outcome from the products step keeps the invariant, given a non-empty image on success. */
  lemma OutcomeKeepsInv(app: App, outcome: TryOnOutcome)
    requires Inv(app) && On(app, Products)
    requires outcome.Succeeded? ==> outcome.image != ""
    ensures Inv(Navigate(app, ApplyTryOn(app.ctx, outcome)))
  {
    if outcome.Succeeded? {
      var s' := SetResult(app.ctx.session, outcome.image, outcome.analysis, outcome.recommendations);
      assert ApplyTryOn(app.ctx, outcome) == AppState(s', Results);
    }
  }

  lemma {:induction false} RunKeepsInv(app: App, events: seq<Event>)
    requires Inv(app)
    ensures Inv(Run(app, events))
    decreases |events|
  {
    if |events| > 0 {
      StepKeepsInv(app, events[0]);
      RunKeepsInv(Step(app, events[0]), events[1..]);
    }
  }

  /**
   In every reachable state the session store is consistent, and on the
   results step there is a result image and an analysis, so the viewer, never
   the restart guard, is what the results page shows.
   */
  lemma ReachableStates(events: seq<Event>)
    ensures var app := Run(Init(), events);
      Synced(app.ctx.session)
      && (On(app, Results) ==> IsTruthyText(app.ctx.session.resultImage) && app.ctx.session.analysis.Some?)
      && MinZoom <= app.viewer.zoom <= MaxZoom
  {
    InitSatisfiesInv();
    RunKeepsInv(Init(), events);
  }

  /**
   The results step is entered only by a successful try-on, right after its
   image, analysis and recommendations were stored.
   */
  lemma ResultsEnteredOnlyAfterSetResult(app: App, e: Event)
    requires !On(app, Results) && On(Step(app, e), Results)
    ensures e.TryOnClicked? && TryOnBarShown(app)
    ensures var outcome := StartTryOn(app.ctx.session, e.analysisReply, e.synthesisReply);
      && outcome.Succeeded?
      && Step(app, e).ctx.session
         == SetResult(app.ctx.session, outcome.image, outcome.analysis, outcome.recommendations)
      && Step(app, e).viewer == InitialViewer()
  {
  }

  /** The header's controls never lead to the results step. */
  lemma HeaderNeverEntersResults(app: App, e: Event)
    requires e.LogoClicked? || e.NavClicked? || e.BackClicked?
    ensures !On(Step(app, e), Results) || (On(app, Results) && Step(app, e) == app)
  {
    match e
    case NavClicked(item) =>
      assert NavTarget(item) != Results;
    case _ =>
  }

  /** Only the current step's page is rendered, so an event of any other page changes nothing. */
  lemma OtherPagesIgnored(app: App, e: Event)
    requires PageOf(e).Some? && !On(app, PageOf(e).value)
    ensures Step(app, e) == app
  {
  }

  /**
   A slot offers its file input only while it is empty and its remove button
   only while it holds a photo; the continue button is disabled until both
   photos are there.
   */
  lemma UploadControlsFollowSlots(app: App, e: Event)
    ensures e.FileChosen? && IsTruthyText(SlotValue(app.ctx.session, e.slot)) ==> Step(app, e) == app
    ensures e.PhotoRemoved? && !IsTruthyText(SlotValue(app.ctx.session, e.slot)) ==> Step(app, e) == app
    ensures e.ContinueClicked? && !CanContinue(app.ctx.session) ==> Step(app, e) == app
    ensures e.ContinueClicked? && On(app, Upload) && CanContinue(app.ctx.session) ==>
      Step(app, e).ctx == AppState(app.ctx.session, Products)
  {
  }

  /**
   While the configuration dialog is open the catalog cards and the try-on bar
   are covered; without it the dialog's size, close and confirm buttons do not
   exist; and the try-on bar needs a selection.
   */
  lemma DialogGuardsProducts(app: App, e: Event)
    ensures e.ProductClicked? && app.products.configuring.Some? ==> Step(app, e) == app
    ensures (e.SizeClicked? || e.DialogClosed? || e.ConfirmClicked?) && app.products.configuring.None? ==>
      Step(app, e) == app
    ensures e.TryOnClicked? && (|app.ctx.session.selectedProducts| == 0 || app.products.configuring.Some?) ==>
      Step(app, e) == app
  {
  }

  /**
   Without a result image and an analysis the results page shows only its
   restart button, which starts a fresh session on the landing step; with
   them it shows only the viewer.
   */
  lemma ResultsGuardControls(app: App, e: Event)
    ensures PageOf(e) == Some(Results) && !e.RestartClicked? && !ShowsViewer(app.ctx.session) ==>
      Step(app, e) == app
    ensures e.RestartClicked? && ShowsViewer(app.ctx.session) ==> Step(app, e) == app
    ensures e.RestartClicked? && On(app, Results) && !ShowsViewer(app.ctx.session) ==>
      Step(app, e).ctx == AppState(DefaultSession(), Landing)
  {
  }

  /** The back button is absent on the landing step and elsewhere returns there with the session kept. */
  lemma BackHiddenOnLanding(app: App)
    ensures On(app, Landing) ==> Step(app, BackClicked) == app
    ensures !On(app, Landing) ==> Step(app, BackClicked).ctx == AppState(app.ctx.session, Landing)
  {
  }

  /** A try-on that fails after the checks leaves everything as it was. */
  lemma FailedTryOnChangesNothing(app: App, ar: Remote<BodyAnalysis>, sr: Remote<Option<seq<Part>>>)
    requires StartTryOn(app.ctx.session, ar, sr).Failed?
    ensures Step(app, TryOnClicked(ar, sr)) == app
  {
  }

  /** A try-on with a photo missing moves to the upload step without touching the session. */
  lemma MissingPhotoGoesToUpload(app: App, ar: Remote<BodyAnalysis>, sr: Remote<Option<seq<Part>>>)
    requires TryOnBarShown(app)
    requires !IsTruthyText(app.ctx.session.facePhoto) || !IsTruthyText(app.ctx.session.bodyPhoto)
    ensures var r := Step(app, TryOnClicked(ar, sr));
      r.ctx.session == app.ctx.session && On(r, Upload) && r.products == InitialUI()
  {
  }

  /** A rejected or absent file leaves the whole application as it was. */
  lemma RejectedFileChangesNothing(app: App, slot: Slot, choice: FileChoice)
    requires choice.NoFile? || choice.size > MaxFileBytes
    ensures Step(app, FileChosen(slot, choice)) == app
  {
  }
}
