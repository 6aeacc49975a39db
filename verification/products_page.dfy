/**
 The products page: clicking a garment either deselects it or opens its
 configuration with the first size and colour; confirming stores the choice;
 starting the try-on checks its preconditions, analyses the body photo,
 computes recommendations, synthesizes the image and stores all three.

 The two remote calls are given by what they answered, and the whole
 handler runs as one step.
 */
module ProductsPage {
  import opened Types
  import opened AppContext
  import opened GeminiService

  /** The page's own state: the garment being configured and the size and colour picked for it. */
  datatype ProductsUI = ProductsUI(configuring: Option<Product>, selectedSize: string, selectedColor: string)

  function InitialUI(): ProductsUI {
    ProductsUI(None, "", "")
  }

  /** The size picked in the configuration dialog is always one the garment offers. */
  predicate ConfiguredSizeOffered(ui: ProductsUI) {
    ui.configuring.Some? ==> ui.selectedSize in ui.configuring.value.sizes
  }

  datatype PageState = PageState(session: TryOnSession, ui: ProductsUI)

  /**
   `handleProductClick`: a selected garment is removed and no dialog opens;
   an unselected one opens the dialog on its first size and first colour and
   leaves the session untouched.
   */
  function HandleProductClick(s: TryOnSession, ui: ProductsUI, p: Product): (r: PageState)
    requires |p.sizes| > 0 && |p.colors| > 0
    ensures IsSelected(s, p.id) ==> r.session == RemoveProduct(s, p.id) && r.ui == ui
    ensures !IsSelected(s, p.id) ==> r.session == s
    ensures !IsSelected(s, p.id) ==>
      r.ui.configuring == Some(p) && r.ui.selectedSize == p.sizes[0] && r.ui.selectedColor == p.colors[0].name
    ensures ConfiguredSizeOffered(ui) ==> ConfiguredSizeOffered(r.ui)
  {
    if IsSelected(s, p.id) then PageState(RemoveProduct(s, p.id), ui)
    else PageState(s, ProductsUI(Some(p), p.sizes[0], p.colors[0].name))
  }

  /** A size button in the dialog: the `j`-th size the configured garment offers. */
  function PickSize(ui: ProductsUI, j: nat): (r: ProductsUI)
    ensures r.configuring == ui.configuring && r.selectedColor == ui.selectedColor
    ensures ui.configuring.Some? && j < |ui.configuring.value.sizes| ==>
      r.selectedSize == ui.configuring.value.sizes[j]
    ensures !(ui.configuring.Some? && j < |ui.configuring.value.sizes|) ==> r == ui
    ensures ConfiguredSizeOffered(ui) ==> ConfiguredSizeOffered(r)
  {
    if ui.configuring.Some? && j < |ui.configuring.value.sizes| then ui.(selectedSize := ui.configuring.value.sizes[j])
    else ui
  }

  /** The dialog's close button or backdrop. */
  function CloseConfiguration(ui: ProductsUI): (r: ProductsUI)
    ensures r.configuring.None?
  {
    ui.(configuring := None)
  }

  /** `confirmSelection`: stores the picked size and colour for the garment and closes the dialog. */
  function ConfirmSelection(s: TryOnSession, ui: ProductsUI): (r: PageState)
    ensures ui.configuring.None? ==> r == PageState(s, ui)
    ensures ui.configuring.Some? ==>
      r.session == SelectProduct(s, ui.configuring.value, SelectedOption(ui.selectedSize, ui.selectedColor))
    ensures r.ui.configuring.None?
  {
    match ui.configuring
    case None => PageState(s, ui)
    case Some(p) => PageState(SelectProduct(s, p, SelectedOption(ui.selectedSize, ui.selectedColor)), CloseConfiguration(ui))
  }

  // ---------------------------------------------------------------------------
  // Starting the try-on

  datatype TryOnOutcome =
    | NothingSelected                // returns at once
    | PhotosMissing                  // alerts and sends the visitor to the upload step
    | Failed(error: Failure)         // alerts; nothing is stored
    | Succeeded(image: string, analysis: BodyAnalysis, recommendations: seq<SizeRecommendation>)

  /**
   `handleStartTryOn` up to the point where it stores its result: the checks
   in order, then analysis, recommendations for the current selection, and
   synthesis from the current photos, selection and options.
   */
  function StartTryOn(s: TryOnSession, analysisReply: Remote<BodyAnalysis>,
                      synthesisReply: Remote<Option<seq<Part>>>): (r: TryOnOutcome)
    ensures r == NothingSelected <==> |s.selectedProducts| == 0
    ensures r == PhotosMissing <==>
      |s.selectedProducts| > 0 && !(IsTruthyText(s.facePhoto) && IsTruthyText(s.bodyPhoto))
    ensures r.Succeeded? <==>
      && |s.selectedProducts| > 0
      && IsTruthyText(s.facePhoto) && IsTruthyText(s.bodyPhoto)
      && AnalyzeBody(s.bodyPhoto.value, analysisReply).Ok?
      && GenerateTryOnResult(s.facePhoto.value, s.bodyPhoto.value, s.selectedProducts,
                             s.selectedOptions, synthesisReply).Ok?
    ensures r.Succeeded? ==>
      && IsTruthyText(s.facePhoto) && IsTruthyText(s.bodyPhoto)
      && AnalyzeBody(s.bodyPhoto.value, analysisReply) == Ok(r.analysis)
      && r.recommendations == GetRecommendations(r.analysis, s.selectedProducts)
      && GenerateTryOnResult(s.facePhoto.value, s.bodyPhoto.value, s.selectedProducts,
                             s.selectedOptions, synthesisReply) == Ok(r.image)
  {
    if |s.selectedProducts| == 0 then NothingSelected
    else if !IsTruthyText(s.facePhoto) || !IsTruthyText(s.bodyPhoto) then PhotosMissing
    else
      match AnalyzeBody(s.bodyPhoto.value, analysisReply)
      case Err(e) => Failed(e)
      case Ok(a) =>
        var recs := GetRecommendations(a, s.selectedProducts);
        match GenerateTryOnResult(s.facePhoto.value, s.bodyPhoto.value, s.selectedProducts, s.selectedOptions, synthesisReply)
        case Err(e) => Failed(e)
        case Ok(image) => Succeeded(image, a, recs)
  }

  /** Before any remote call the outcome is decided without the remote answers. */
  lemma PreconditionsNeedNoRemoteCall(s: TryOnSession,
                                      a1: Remote<BodyAnalysis>, a2: Remote<BodyAnalysis>,
                                      g1: Remote<Option<seq<Part>>>, g2: Remote<Option<seq<Part>>>)
    requires |s.selectedProducts| == 0 || !IsTruthyText(s.facePhoto) || !IsTruthyText(s.bodyPhoto)
    ensures StartTryOn(s, a1, g1) == StartTryOn(s, a2, g2)
    ensures StartTryOn(s, a1, g1) == NothingSelected || StartTryOn(s, a1, g1) == PhotosMissing
  {
  }

  /**
   Storing the outcome: the result is set and then the step becomes results
   on success; a missing photo sends the visitor to the upload step; an empty
   selection or a failure changes nothing.
   */
  function ApplyTryOn(st: AppState, outcome: TryOnOutcome): (r: AppState)
    ensures outcome.Succeeded? ==>
      r == SetStep(AppState(SetResult(st.session, outcome.image, outcome.analysis, outcome.recommendations), st.currentStep), Results)
    ensures outcome == PhotosMissing ==> r.session == st.session && r.currentStep == Upload
    ensures outcome == NothingSelected || outcome.Failed? ==> r == st
    ensures r.currentStep == Results ==> outcome.Succeeded? || st.currentStep == Results
  {
    match outcome
    case NothingSelected => st
    case PhotosMissing => SetStep(st, Upload)
    case Failed(_) => st
    case Succeeded(image, a, recs) =>
      SetStep(AppState(SetResult(st.session, image, a, recs), st.currentStep), Results)
  }

  /**
   On success with a consistent session, the stored result is a PNG data URL
   and there is one recommendation per selected garment, in selection order.
   */
  lemma SuccessfulTryOn(s: TryOnSession, analysisReply: Remote<BodyAnalysis>,
                        synthesisReply: Remote<Option<seq<Part>>>)
    requires Synced(s)
    requires |s.selectedProducts| > 0 && IsTruthyText(s.facePhoto) && IsTruthyText(s.bodyPhoto)
    requires ExtractBase64Data(s.bodyPhoto) != "" && analysisReply.Responded?
    requires synthesisReply.Responded? && synthesisReply.body.Some? && HasInlineImage(synthesisReply.body.value)
    ensures var r := StartTryOn(s, analysisReply, synthesisReply);
      && r.Succeeded?
      && ImageHeader <= r.image
      && r.analysis == analysisReply.body
      && |r.recommendations| == |s.selectedProducts|
      && forall i :: 0 <= i < |s.selectedProducts| ==> r.recommendations[i].productId == s.selectedProducts[i].id
  {
    assert HasAllOptions(s.selectedProducts, s.selectedOptions) by {
      forall i | 0 <= i < |s.selectedProducts| ensures s.selectedProducts[i].id in s.selectedOptions {
        assert s.selectedProducts[i] in s.selectedProducts;
      }
    }
  }
}
