/**
 The data model of the try-on application: catalog entries, the body analysis
 returned by the remote model, size recommendations, the per-visit session and
 the four navigation steps.

 TypeScript's `T | null` and optional fields become `Option<T>`; the closed
 string unions become datatypes with their wire spelling given by a `...Name`
 function and read back by a `Parse...` function.
 */
module Types {

  datatype Option<+T> = None | Some(value: T)

  /** JavaScript truthiness of a nullable string: null and "" are both falsy. */
  predicate IsTruthyText(o: Option<string>) {
    o.Some? && o.value != ""
  }

  /** JavaScript truthiness of an optional number: absent and 0 are both falsy. */
  predicate IsTruthyNumber(o: Option<real>) {
    o.Some? && o.value != 0.0
  }

  datatype Category = Tops | Bottoms | Outerwear

  function CategoryName(c: Category): string {
    match c
    case Tops => "tops"
    case Bottoms => "bottoms"
    case Outerwear => "outerwear"
  }

  /** Reads a category back from its wire spelling; only the three spellings are accepted. */
  function ParseCategory(s: string): (r: Option<Category>)
    ensures r.Some? <==> (s == "tops" || s == "bottoms" || s == "outerwear")
    ensures r.Some? ==> CategoryName(r.value) == s
  {
    if s == "tops" then Some(Tops)
    else if s == "bottoms" then Some(Bottoms)
    else if s == "outerwear" then Some(Outerwear)
    else None
  }

  lemma CategoryRoundTrip(c: Category)
    ensures ParseCategory(CategoryName(c)) == Some(c)
  {
  }

  datatype Gender = Men | Women | Unisex

  function GenderName(g: Gender): string {
    match g
    case Men => "men"
    case Women => "women"
    case Unisex => "unisex"
  }

  function ParseGender(s: string): (r: Option<Gender>)
    ensures r.Some? <==> (s == "men" || s == "women" || s == "unisex")
    ensures r.Some? ==> GenderName(r.value) == s
  {
    if s == "men" then Some(Men)
    else if s == "women" then Some(Women)
    else if s == "unisex" then Some(Unisex)
    else None
  }

  lemma GenderRoundTrip(g: Gender)
    ensures ParseGender(GenderName(g)) == Some(g)
  {
  }

  datatype Color = Color(name: string, hex: string)

  /** A per-size measurement record in centimetres; every field is optional. */
  datatype Measurements = Measurements(
    chest: Option<real>,
    waist: Option<real>,
    length: Option<real>,
    shoulders: Option<real>)

  /** One `[size, record]` pair of a product's measurement table, in iteration order. */
  datatype SizeEntry = SizeEntry(size: string, record: Measurements)

  datatype Product = Product(
    id: string,
    name: string,
    brand: string,
    category: Category,
    price: real,
    description: string,
    imageUrl: string,
    sizes: seq<string>,
    colors: seq<Color>,
    gender: Gender,
    measurements: seq<SizeEntry>)

  datatype FitStatus = Optimal | Tight | Loose

  function FitStatusName(f: FitStatus): string {
    match f
    case Optimal => "optimal"
    case Tight => "tight"
    case Loose => "loose"
  }

  function ParseFitStatus(s: string): (r: Option<FitStatus>)
    ensures r.Some? <==> (s == "optimal" || s == "tight" || s == "loose")
    ensures r.Some? ==> FitStatusName(r.value) == s
  {
    if s == "optimal" then Some(Optimal)
    else if s == "tight" then Some(Tight)
    else if s == "loose" then Some(Loose)
    else None
  }

  /** `value` is documented as a 0-100 score; nothing in the application enforces it.
      The source field `label` is renamed `metricLabel` (`label` is a Dafny keyword). */
  datatype FitMetric = FitMetric(metricLabel: string, value: real, status: FitStatus)

  datatype BodyAnalysis = BodyAnalysis(
    heightRange: string,
    bodyType: string,
    chestCm: real,
    waistCm: real,
    shoulderWidth: string,
    proportions: string,
    confidence: real,
    fitMetrics: seq<FitMetric>)

  /** `recommendedSize` is None exactly when the application would store JavaScript `undefined`. */
  datatype SizeRecommendation = SizeRecommendation(
    productId: string,
    recommendedSize: Option<string>,
    confidence: real,
    reasoning: string,
    alternativeSize: Option<string>)

  datatype SelectedOption = SelectedOption(size: string, color: string)

  datatype TryOnSession = TryOnSession(
    facePhoto: Option<string>,
    bodyPhoto: Option<string>,
    selectedProducts: seq<Product>,
    selectedOptions: map<string, SelectedOption>,
    resultImage: Option<string>,
    analysis: Option<BodyAnalysis>,
    recommendations: seq<SizeRecommendation>)

  datatype AppStep = Landing | Upload | Products | Results

  function StepValue(s: AppStep): string {
    match s
    case Landing => "landing"
    case Upload => "upload"
    case Products => "products"
    case Results => "results"
  }

  function ParseStep(s: string): (r: Option<AppStep>)
    ensures r.Some? <==> (s == "landing" || s == "upload" || s == "products" || s == "results")
    ensures r.Some? ==> StepValue(r.value) == s
  {
    if s == "landing" then Some(Landing)
    else if s == "upload" then Some(Upload)
    else if s == "products" then Some(Products)
    else if s == "results" then Some(Results)
    else None
  }

  lemma StepRoundTrip(s: AppStep)
    ensures ParseStep(StepValue(s)) == Some(s)
  {
  }
}
