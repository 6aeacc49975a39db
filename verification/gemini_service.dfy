/**
 The client side of the AI boundary: payload extraction from data URLs, the
 garment description sent with a synthesis request, the extraction of the
 synthesized image from the response, the body-analysis entry check, and the
 deterministic nearest-size recommendation.

 The remote model itself is not modelled: what it answered is a parameter of
 type `Remote<T>`, either the parsed response or a thrown error.
 */
module GeminiService {
  import opened Types
  import opened Strings

  datatype Remote<+T> = Responded(body: T) | Threw

  datatype Failure =
    | InvalidPhotoData     // the payload of the photo is empty; no request is made
    | RemoteFailed         // the request itself threw
    | MissingOptions       // a selected product has no options entry (a TypeError in the source)
    | GenerationFailed     // the synthesis response carried no inline image

  datatype Result<+T> = Ok(value: T) | Err(error: Failure)

  /** One part of the first candidate's content in a synthesis response. */
  datatype InlineData = InlineData(mimeType: string, data: string)
  datatype Part = Part(text: Option<string>, inlineData: Option<InlineData>)

  /** The data-URL header put in front of every synthesized image. */
  const ImageHeader: string := "data:image/png;base64,"

  // ---------------------------------------------------------------------------
  // Payload extraction

  /**
   `extractBase64Data`: null and "" give ""; otherwise the piece after the
   first comma up to the next comma (or the end), or the whole input when it
   has no comma.
   */
  function ExtractBase64Data(s: Option<string>): (r: string)
    ensures ',' !in r
    ensures !IsTruthyText(s) ==> r == ""
    ensures s.Some? && ',' !in s.value ==> r == s.value
    ensures s.Some? && ',' in s.value ==>
      exists i :: 0 <= i < |s.value| && s.value[i] == ',' && ',' !in s.value[..i]
        && r <= s.value[i + 1..]
        && (i + 1 + |r| == |s.value| || s.value[i + 1 + |r|] == ',')
  {
    if !IsTruthyText(s) then ""
    else
      var parts := Split(s.value, ',');
      if |parts| > 1 then
        var i := |parts[0]|;
        assert s.value == parts[0] + [','] + s.value[i + 1..];
        SplitAfterPrefix(parts[0], ',', s.value[i + 1..]);
        assert parts[1] == Split(s.value[i + 1..], ',')[0];
        assert s.value[..i] == parts[0];
        parts[1]
      else
        parts[0]
  }

  /** With exactly one comma in the input, the payload is everything after it. */
  lemma ExtractAfterComma(x: string, d: string)
    requires ',' !in x && ',' !in d
    ensures ExtractBase64Data(Some(x + [','] + d)) == d
  {
    SplitAfterPrefix(x, ',', d);
  }

  /** Prefixing comma-free image data with the header and extracting it gives the data back. */
  lemma ExtractAfterHeader(d: string)
    requires ',' !in d
    ensures ExtractBase64Data(Some(ImageHeader + d)) == d
  {
    var head := "data:image/png;base64";
    assert ImageHeader + d == head + [','] + d;
    ExtractAfterComma(head, d);
  }

  // ---------------------------------------------------------------------------
  // Body analysis

  /**
   `analyzeBody`: an empty payload fails with "Invalid photo data." before
   any request; otherwise the outcome is whatever the remote model answered.
   */
  function AnalyzeBody(bodyPhoto: string, reply: Remote<BodyAnalysis>): (r: Result<BodyAnalysis>)
    ensures r == Err(InvalidPhotoData) <==> ExtractBase64Data(Some(bodyPhoto)) == ""
    ensures r.Ok? <==> ExtractBase64Data(Some(bodyPhoto)) != "" && reply.Responded?
    ensures r.Ok? ==> r.value == reply.body
  {
    if ExtractBase64Data(Some(bodyPhoto)) == "" then Err(InvalidPhotoData)
    else match reply
      case Threw => Err(RemoteFailed)
      case Responded(a) => Ok(a)
  }

  /** With an empty payload the remote answer plays no part: no request was made. */
  lemma EmptyPayloadMakesNoRequest(bodyPhoto: string, reply1: Remote<BodyAnalysis>, reply2: Remote<BodyAnalysis>)
    requires ExtractBase64Data(Some(bodyPhoto)) == ""
    ensures AnalyzeBody(bodyPhoto, reply1) == AnalyzeBody(bodyPhoto, reply2) == Err(InvalidPhotoData)
  {
  }

  // ---------------------------------------------------------------------------
  // Garment description for the synthesis request

  /** `"<name> in size <size> (<color>)"` for one selected product. */
  function DescribeProduct(p: Product, o: SelectedOption): string {
    p.name + " in size " + o.size + " (" + o.color + ")"
  }

  predicate HasAllOptions(products: seq<Product>, options: map<string, SelectedOption>) {
    forall i :: 0 <= i < |products| ==> products[i].id in options
  }

  /** The per-product descriptions, in selection order. */
  function Descriptions(products: seq<Product>, options: map<string, SelectedOption>): (ds: seq<string>)
    requires HasAllOptions(products, options)
    ensures |ds| == |products|
    ensures forall i :: 0 <= i < |products| ==> ds[i] == DescribeProduct(products[i], options[products[i].id])
  {
    seq(|products|, i requires 0 <= i < |products| => DescribeProduct(products[i], options[products[i].id]))
  }

  /**
   The `productInfo` text: one description per product joined by ", ", or
   None when some product has no options entry (reading `opt.size` on
   `undefined` throws in the source).
   */
  function ProductInfo(products: seq<Product>, options: map<string, SelectedOption>): (r: Option<string>)
    ensures r.Some? <==> HasAllOptions(products, options)
    ensures r.Some? ==> r.value == Join(Descriptions(products, options), ", ")
  {
    if HasAllOptions(products, options) then Some(Join(Descriptions(products, options), ", "))
    else None
  }

  /** A single selected product is described on its own, with no separator. */
  lemma SingleProductInfo(p: Product, options: map<string, SelectedOption>)
    requires p.id in options
    ensures ProductInfo([p], options) == Some(DescribeProduct(p, options[p.id]))
  {
    assert HasAllOptions([p], options);
  }

  /** With nothing selected the description is empty. */
  lemma ProductInfoEmpty(options: map<string, SelectedOption>)
    ensures ProductInfo([], options) == Some("")
  {
  }

  /**
   One more selected product adds ", " and its own description at the end,
   so the text lists the products in selection order.
   */
  lemma ProductInfoAppend(ps: seq<Product>, p: Product, options: map<string, SelectedOption>)
    requires |ps| > 0 && HasAllOptions(ps, options) && p.id in options
    ensures ProductInfo(ps + [p], options).Some?
    ensures ProductInfo(ps + [p], options).value
         == ProductInfo(ps, options).value + ", " + DescribeProduct(p, options[p.id])
  {
    assert HasAllOptions(ps + [p], options) by {
      forall i | 0 <= i < |ps + [p]| ensures (ps + [p])[i].id in options {
        if i < |ps| { assert (ps + [p])[i] == ps[i]; }
      }
    }
    assert Descriptions(ps + [p], options) == Descriptions(ps, options) + [DescribeProduct(p, options[p.id])];
    JoinAppend(Descriptions(ps, options), DescribeProduct(p, options[p.id]), ", ");
  }

  // ---------------------------------------------------------------------------
  // Synthesized image extraction

  predicate HasInlineImage(parts: seq<Part>) {
    exists i :: 0 <= i < |parts| && parts[i].inlineData.Some?
  }

  /** Part `k` carries inline data and no part before it does. */
  predicate IsFirstImage(parts: seq<Part>, k: int) {
    0 <= k < |parts| && parts[k].inlineData.Some?
    && forall j :: 0 <= j < k ==> parts[j].inlineData.None?
  }

  /**
   The data URL of the first part that carries inline data, with the PNG
   header regardless of the declared MIME type; None when no part has one.
   */
  function FirstInlineImage(parts: seq<Part>): (r: Option<string>)
    ensures r.Some? <==> HasInlineImage(parts)
    ensures r.Some? ==>
      exists k :: IsFirstImage(parts, k) && r.value == ImageHeader + parts[k].inlineData.value.data
    decreases |parts|
  {
    if |parts| == 0 then None
    else if parts[0].inlineData.Some? then Some(ImageHeader + parts[0].inlineData.value.data)
    else
      var r := FirstInlineImage(parts[1..]);
      assert HasInlineImage(parts[1..]) ==> HasInlineImage(parts) by {
        if HasInlineImage(parts[1..]) {
          var i :| 0 <= i < |parts[1..]| && parts[1..][i].inlineData.Some?;
          assert parts[i + 1].inlineData.Some?;
        }
      }
      assert HasInlineImage(parts) ==> HasInlineImage(parts[1..]) by {
        if HasInlineImage(parts) {
          var i :| 0 <= i < |parts| && parts[i].inlineData.Some?;
          assert i > 0 && parts[1..][i - 1].inlineData.Some?;
        }
      }
      if r.Some? then
        var k :| IsFirstImage(parts[1..], k) && r.value == ImageHeader + parts[1..][k].inlineData.value.data;
        assert forall j :: 0 <= j < k + 1 ==> parts[j].inlineData.None? by {
          forall j | 0 <= j < k + 1 ensures parts[j].inlineData.None? {
            if j > 0 { assert parts[j] == parts[1..][j - 1]; }
          }
        }
        assert parts[k + 1] == parts[1..][k];
        assert IsFirstImage(parts, k + 1);
        r
      else
        r
  }

  /**
   The outcome of `generateTryOnResult`. The garment description is built
   before the request, so a missing options entry fails without one; a
   response without candidate parts or without any inline image fails with
   "AI Generation failed".
   */
  function GenerateTryOnResult(
    facePhoto: string,
    bodyPhoto: string,
    products: seq<Product>,
    options: map<string, SelectedOption>,
    reply: Remote<Option<seq<Part>>>): (r: Result<string>)
    ensures r == Err(MissingOptions) <==> !HasAllOptions(products, options)
    ensures r.Ok? <==>
      (HasAllOptions(products, options) && reply.Responded?
       && reply.body.Some? && HasInlineImage(reply.body.value))
    ensures r.Ok? ==> ImageHeader <= r.value && r.value == FirstInlineImage(reply.body.value).value
  {
    if ProductInfo(products, options).None? then Err(MissingOptions)
    else match reply
      case Threw => Err(RemoteFailed)
      case Responded(None) => Err(GenerationFailed)
      case Responded(Some(parts)) =>
        match FirstInlineImage(parts)
        case None => Err(GenerationFailed)
        case Some(url) => Ok(url)
  }

  /**
   The synthesized image is a data URL whose payload, as the application
   extracts it again, is the first inline image's data (when that data has
   no comma, as base64 never does).
   */
  lemma SynthesisPayloadRoundTrip(parts: seq<Part>, k: nat)
    requires IsFirstImage(parts, k)
    requires ',' !in parts[k].inlineData.value.data
    ensures FirstInlineImage(parts).Some?
    ensures ExtractBase64Data(FirstInlineImage(parts)) == parts[k].inlineData.value.data
  {
    var r := FirstInlineImage(parts);
    assert HasInlineImage(parts);
    var k' :| IsFirstImage(parts, k') && r.value == ImageHeader + parts[k'].inlineData.value.data;
    assert parts[k].inlineData.Some? && parts[k'].inlineData.Some?;
    assert k' == k;
    ExtractAfterHeader(parts[k].inlineData.value.data);
  }

  // ---------------------------------------------------------------------------
  // Size recommendation

  function Abs(x: real): real {
    if x < 0.0 then -x else x
  }

  /** A measurement counts only when it is truthy: absent and 0 contribute nothing. */
  function Contribution(field: Option<real>, measured: real): (c: real)
    ensures c >= 0.0
    ensures !IsTruthyNumber(field) ==> c == 0.0
  {
    if IsTruthyNumber(field) then Abs(field.value - measured) else 0.0
  }

  /** Unweighted distance of one size's record from the analysis: chest and waist only. */
  function Distance(m: Measurements, a: BodyAnalysis): (d: real)
    ensures d >= 0.0
    ensures d == 0.0 <==>
      (IsTruthyNumber(m.chest) ==> m.chest.value == a.chestCm)
      && (IsTruthyNumber(m.waist) ==> m.waist.value == a.waistCm)
  {
    Contribution(m.chest, a.chestCm) + Contribution(m.waist, a.waistCm)
  }

  /**
   Entry `k` has the least distance of all entries and every entry before it
   is strictly farther: the entry a left-to-right scan with a strict `<`
   keeps.
   */
  predicate EarliestMinimum(entries: seq<SizeEntry>, a: BodyAnalysis, k: int) {
    && 0 <= k < |entries|
    && (forall j :: 0 <= j < |entries| ==> Distance(entries[k].record, a) <= Distance(entries[j].record, a))
    && (forall j :: 0 <= j < k ==> Distance(entries[j].record, a) > Distance(entries[k].record, a))
  }

  lemma EarliestMinimumUnique(entries: seq<SizeEntry>, a: BodyAnalysis, k1: int, k2: int)
    requires EarliestMinimum(entries, a, k1) && EarliestMinimum(entries, a, k2)
    ensures k1 == k2
  {
    // Each is at most the other, so neither can be strictly before the other.
    assert Distance(entries[k1].record, a) <= Distance(entries[k2].record, a);
    assert Distance(entries[k2].record, a) <= Distance(entries[k1].record, a);
  }

  /** The index of the earliest closest entry, found as the source's scan finds it. */
  function ClosestEntry(entries: seq<SizeEntry>, a: BodyAnalysis): (k: nat)
    requires |entries| > 0
    ensures EarliestMinimum(entries, a, k)
    decreases |entries|
  {
    if |entries| == 1 then 0
    else
      var init := entries[..|entries| - 1];
      var k := ClosestEntry(init, a);
      assert forall j :: 0 <= j < |init| ==> init[j] == entries[j];
      if Distance(entries[|entries| - 1].record, a) < Distance(entries[k].record, a) then |entries| - 1
      else k
  }

  /** `product.sizes[0]`, or None for JavaScript `undefined` when there are no sizes. */
  function DefaultSize(p: Product): (r: Option<string>)
    ensures r.Some? <==> |p.sizes| > 0
    ensures r.Some? ==> r.value == p.sizes[0]
  {
    if |p.sizes| > 0 then Some(p.sizes[0]) else None
  }

  /**
   The size `getRecommendations` picks: the default when the measurement
   table is empty, otherwise the size of the earliest entry of least distance.
   */
  function RecommendedSize(p: Product, a: BodyAnalysis): (r: Option<string>)
    ensures |p.measurements| == 0 ==> r == DefaultSize(p)
    ensures |p.measurements| > 0 ==>
      exists k :: EarliestMinimum(p.measurements, a, k) && r == Some(p.measurements[k].size)
  {
    if |p.measurements| == 0 then DefaultSize(p)
    else Some(p.measurements[ClosestEntry(p.measurements, a)].size)
  }

  /**
   The source's `forEach` scan, with the running minimum starting at
   Infinity (None here) and replaced only on a strictly smaller distance.
   */
  method ScanSizes(p: Product, a: BodyAnalysis) returns (best: Option<string>)
    ensures |p.measurements| == 0 ==> best == DefaultSize(p)
    ensures forall k :: EarliestMinimum(p.measurements, a, k) ==> best == Some(p.measurements[k].size)
  {
    var entries := p.measurements;
    best := DefaultSize(p);
    var minDiff: Option<real> := None;
    ghost var chosen := -1;
    var i := 0;
    while i < |entries|
      invariant 0 <= i <= |entries|
      invariant i == 0 ==> best == DefaultSize(p) && minDiff.None?
      invariant i > 0 ==> EarliestMinimum(entries[..i], a, chosen)
      invariant i > 0 ==> minDiff == Some(Distance(entries[chosen].record, a))
      invariant i > 0 ==> best == Some(entries[chosen].size)
    {
      var diff := Distance(entries[i].record, a);
      if minDiff.None? || diff < minDiff.value {
        minDiff := Some(diff);
        best := Some(entries[i].size);
        chosen := i;
      }
      i := i + 1;
    }
    assert entries[..|entries|] == entries;
    forall k | EarliestMinimum(entries, a, k) ensures best == Some(entries[k].size) {
      EarliestMinimumUnique(entries, a, k, chosen);
    }
  }

  /** How `undefined` renders in a template literal. */
  function SizeText(size: Option<string>): string {
    match size
    case Some(s) => s
    case None => "undefined"
  }

  function Reasoning(a: BodyAnalysis, size: Option<string>): string {
    "Based on your " + a.bodyType + " build, size " + SizeText(size)
      + " will provide a clean, architectural silhouette."
  }

  /** The recommendation for one product. */
  function Recommend(a: BodyAnalysis, p: Product): SizeRecommendation {
    var size := RecommendedSize(p, a);
    SizeRecommendation(p.id, size, 0.95, Reasoning(a, size), None)
  }

  /**
   `getRecommendations`: one recommendation per product, in input order,
   naming the product, the closest size, a constant confidence of 0.95 and no
   alternative size.
   */
  function GetRecommendations(a: BodyAnalysis, products: seq<Product>): (rs: seq<SizeRecommendation>)
    ensures |rs| == |products|
    ensures forall i :: 0 <= i < |products| ==>
      && rs[i].productId == products[i].id
      && rs[i].recommendedSize == RecommendedSize(products[i], a)
      && rs[i].confidence == 0.95
      && rs[i].alternativeSize.None?
  {
    seq(|products|, i requires 0 <= i < |products| => Recommend(a, products[i]))
  }

  predicate SizesCoverTable(p: Product) {
    forall j :: 0 <= j < |p.measurements| ==> p.measurements[j].size in p.sizes
  }

  /** When every table key is a declared size and there are sizes, the pick is a declared size. */
  lemma RecommendedSizeIsDeclared(p: Product, a: BodyAnalysis)
    requires SizesCoverTable(p) && |p.sizes| > 0
    ensures RecommendedSize(p, a).Some? && RecommendedSize(p, a).value in p.sizes
  {
  }

  /**
   When no entry has a truthy chest or waist, every entry is at distance 0
   and the first table entry is picked; with the table in declared order that
   is `sizes[0]`.
   */
  lemma NoChestOrWaistPicksFirst(p: Product, a: BodyAnalysis)
    requires |p.measurements| > 0
    requires forall j :: 0 <= j < |p.measurements| ==>
      !IsTruthyNumber(p.measurements[j].record.chest) && !IsTruthyNumber(p.measurements[j].record.waist)
    ensures RecommendedSize(p, a) == Some(p.measurements[0].size)
    ensures |p.sizes| > 0 && p.sizes[0] == p.measurements[0].size ==> RecommendedSize(p, a) == DefaultSize(p)
  {
    var k := ClosestEntry(p.measurements, a);
    assert Distance(p.measurements[k].record, a) == 0.0;
  }
}
