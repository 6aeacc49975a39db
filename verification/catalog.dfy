/**
 The static catalog of four garments, and facts about it that the rest of
 the application relies on: distinct ids, a measurement table in declared
 size order, one driving measurement per garment, and one colour each.
 */
module Catalog {
  import opened Types
  import opened GeminiService

  function Top(chest: real, length: real): Measurements {
    Measurements(Some(chest), None, Some(length), None)
  }

  function Trouser(waist: real, length: real): Measurements {
    Measurements(None, Some(waist), Some(length), None)
  }

  const Henley: Product := Product(
    "p1", "Long-Sleeve Ribbed Henley", "Y.STUDIOS", Tops, 650.0,
    "A premium slim-fit henley in deep matte black. Features a textured rib-knit and a sophisticated three-button neckline.",
    "https://lh3.googleusercontent.com/d/1AvziUO4gRt6I417YsyCmwKugJ0ddzpig",
    ["S", "M", "L", "XL"],
    [Color("Matte Black", "#000000")],
    Men,
    [SizeEntry("S", Top(92.0, 68.0)), SizeEntry("M", Top(100.0, 70.0)),
     SizeEntry("L", Top(108.0, 72.0)), SizeEntry("XL", Top(116.0, 74.0))])

  const Sweater: Product := Product(
    "p2", "Varsity Cable-Knit Sweater", "Y.STUDIOS", Tops, 1150.0,
    "Classic ivory cable-knit sweater with a deep V-neck and emerald green varsity stripes. Crafted for a relaxed, timeless silhouette.",
    "https://lh3.googleusercontent.com/d/1zvrF7wML06yLz3hLQrPMbdIM572qZRjN",
    ["XS", "S", "M", "L"],
    [Color("Cream / Green", "#fdfcf0")],
    Unisex,
    [SizeEntry("XS", Top(88.0, 64.0)), SizeEntry("S", Top(96.0, 66.0)),
     SizeEntry("M", Top(104.0, 68.0)), SizeEntry("L", Top(112.0, 70.0))])

  const Trousers: Product := Product(
    "p3", "Wide-Leg Pleated Trouser", "Y.STUDIOS", Bottoms, 850.0,
    "Sophisticated wide-leg trousers in jet black with crisp double pleats. Designed to create a dramatic yet tailored high-fashion look.",
    "https://lh3.googleusercontent.com/d/1FuV0hGxJQlmNZifr9xv3vwuD_mh0xydx",
    ["28", "30", "32", "34", "36"],
    [Color("Jet Black", "#000000")],
    Unisex,
    [SizeEntry("28", Trouser(71.0, 104.0)), SizeEntry("30", Trouser(76.0, 105.0)),
     SizeEntry("32", Trouser(81.0, 106.0)), SizeEntry("34", Trouser(86.0, 107.0)),
     SizeEntry("36", Trouser(91.0, 108.0))])

  const Polo: Product := Product(
    "p4", "Textured Knit Polo", "Y.STUDIOS", Tops, 850.0,
    "Refined heather grey polo sweater with a three-button collar. A versatile staple that combines the comfort of a sweater with the structure of a polo.",
    "https://lh3.googleusercontent.com/d/1F2hBadEUCPy8BU1Ip5qxLGVzP7Htqz-x",
    ["S", "M", "L", "XL"],
    [Color("Heather Grey", "#9ca3af")],
    Men,
    [SizeEntry("S", Top(96.0, 68.0)), SizeEntry("M", Top(104.0, 70.0)),
     SizeEntry("L", Top(112.0, 72.0)), SizeEntry("XL", Top(120.0, 74.0))])

  /** `PRODUCTS`, in display order. */
  const AllProducts: seq<Product> := [Henley, Sweater, Trousers, Polo]

  function TableSizes(entries: seq<SizeEntry>): (ks: seq<string>)
    ensures |ks| == |entries|
    ensures forall j :: 0 <= j < |entries| ==> ks[j] == entries[j].size
  {
    seq(|entries|, j requires 0 <= j < |entries| => entries[j].size)
  }

  /**
   Every entry of a top records a truthy chest and a length and nothing else,
   so only the chest drives the distance.
   */
  predicate ChestDriven(p: Product) {
    forall j :: 0 <= j < |p.measurements| ==>
      var m := p.measurements[j].record;
      IsTruthyNumber(m.chest) && m.waist.None? && IsTruthyNumber(m.length) && m.shoulders.None?
  }

  /**
   Every entry of the trouser records a truthy waist and a length and nothing
   else, so only the waist drives the distance.
   */
  predicate WaistDriven(p: Product) {
    forall j :: 0 <= j < |p.measurements| ==>
      var m := p.measurements[j].record;
      IsTruthyNumber(m.waist) && m.chest.None? && IsTruthyNumber(m.length) && m.shoulders.None?
  }

  /** Chest values strictly increase along the size order (callers also know they are present). */
  predicate ChestIncreasing(p: Product)
    requires ChestDriven(p)
  {
    forall j, k :: 0 <= j < k < |p.measurements| ==>
      p.measurements[j].record.chest.value < p.measurements[k].record.chest.value
  }

  /** Waist values strictly increase along the size order. */
  predicate WaistIncreasing(p: Product)
    requires WaistDriven(p)
  {
    forall j, k :: 0 <= j < k < |p.measurements| ==>
      p.measurements[j].record.waist.value < p.measurements[k].record.waist.value
  }

  lemma CatalogIds()
    ensures |AllProducts| == 4
    ensures AllProducts[0].id == "p1" && AllProducts[1].id == "p2" && AllProducts[2].id == "p3" && AllProducts[3].id == "p4"
    ensures forall i, j :: 0 <= i < j < |AllProducts| ==> AllProducts[i].id != AllProducts[j].id
  {
  }

  /** Every garment's measurement table lists exactly its sizes, in the same order. */
  lemma TablesFollowSizes()
    ensures forall i :: 0 <= i < |AllProducts| ==> TableSizes(AllProducts[i].measurements) == AllProducts[i].sizes
  {
    assert TableSizes(Henley.measurements) == Henley.sizes;
    assert TableSizes(Sweater.measurements) == Sweater.sizes;
    assert TableSizes(Trousers.measurements) == Trousers.sizes;
    assert TableSizes(Polo.measurements) == Polo.sizes;
  }

  /** Tops are measured by chest only and the trouser by waist only, each strictly increasing. */
  lemma OneDrivingMeasurement()
    ensures forall i :: 0 <= i < |AllProducts| && AllProducts[i].category == Tops ==>
      ChestDriven(AllProducts[i]) && ChestIncreasing(AllProducts[i])
    ensures forall i :: 0 <= i < |AllProducts| && AllProducts[i].category == Bottoms ==>
      WaistDriven(AllProducts[i]) && WaistIncreasing(AllProducts[i])
  {
    HenleyChest();
    SweaterChest();
    TrousersWaist();
    PoloChest();
  }

  lemma HenleyChest()
    ensures ChestDriven(Henley) && ChestIncreasing(Henley)
  {
  }

  lemma SweaterChest()
    ensures ChestDriven(Sweater) && ChestIncreasing(Sweater)
  {
  }

  lemma TrousersWaist()
    ensures WaistDriven(Trousers) && WaistIncreasing(Trousers)
  {
  }

  lemma PoloChest()
    ensures ChestDriven(Polo) && ChestIncreasing(Polo)
  {
  }

  /** Every garment has exactly one colour and at least one size, so `colors[0]` and `sizes[0]` exist. */
  lemma OneColourEach()
    ensures forall i :: 0 <= i < |AllProducts| ==> |AllProducts[i].colors| == 1 && |AllProducts[i].sizes| > 0
  {
  }

  /** With a 100 cm chest the henley's pick is "M": distance 0 against 8 for both S and L. */
  lemma HenleyAtChest100(a: BodyAnalysis)
    requires a.chestCm == 100.0
    ensures Distance(Henley.measurements[0].record, a) == 8.0
    ensures Distance(Henley.measurements[1].record, a) == 0.0
    ensures Distance(Henley.measurements[2].record, a) == 8.0
    ensures RecommendedSize(Henley, a) == Some("M")
    ensures GetRecommendations(a, [Henley])[0].recommendedSize == Some("M")
  {
    assert EarliestMinimum(Henley.measurements, a, 1);
    var k :| EarliestMinimum(Henley.measurements, a, k) && RecommendedSize(Henley, a) == Some(Henley.measurements[k].size);
    EarliestMinimumUnique(Henley.measurements, a, k, 1);
  }

  /** For every catalog garment the recommended size is one of its declared sizes. */
  lemma CatalogPicksDeclaredSizes(a: BodyAnalysis)
    ensures forall i :: 0 <= i < |AllProducts| ==>
      RecommendedSize(AllProducts[i], a).Some? && RecommendedSize(AllProducts[i], a).value in AllProducts[i].sizes
  {
    TablesFollowSizes();
    forall i | 0 <= i < |AllProducts|
      ensures RecommendedSize(AllProducts[i], a).Some? && RecommendedSize(AllProducts[i], a).value in AllProducts[i].sizes
    {
      var p := AllProducts[i];
      assert SizesCoverTable(p) by {
        forall j | 0 <= j < |p.measurements| ensures p.measurements[j].size in p.sizes {
          assert TableSizes(p.measurements)[j] == p.measurements[j].size;
        }
      }
      RecommendedSizeIsDeclared(p, a);
    }
  }
}
