/**
 The session store: the per-visit session and the current step, with the
 operations the pages call on them. Every operation is a pure function from
 the previous state to the next one, as the store's functional updates are.

 The store's invariant is `Synced`: the ids of the selected products are
 exactly the keys of the selected options, and no id is selected twice.
 */
module AppContext {
  import opened Types

  datatype AppState = AppState(session: TryOnSession, currentStep: AppStep)

  /** The session a visit starts with and a restart returns to. */
  function DefaultSession(): (s: TryOnSession)
    ensures s.facePhoto.None? && s.bodyPhoto.None?
    ensures s.resultImage.None? && s.analysis.None?
    ensures |s.selectedProducts| == 0 && s.selectedOptions == map[] && |s.recommendations| == 0
  {
    TryOnSession(None, None, [], map[], None, None, [])
  }

  function InitialState(): (st: AppState)
    ensures st.session == DefaultSession() && st.currentStep == Landing
  {
    AppState(DefaultSession(), Landing)
  }

  function SetStep(st: AppState, step: AppStep): (r: AppState)
    ensures r.currentStep == step && r.session == st.session
  {
    st.(currentStep := step)
  }

  // ---------------------------------------------------------------------------
  // Selection bookkeeping

  function IdSet(ps: seq<Product>): set<string> {
    set q | q in ps :: q.id
  }

  predicate NoDuplicateIds(ps: seq<Product>) {
    forall i, j :: 0 <= i < j < |ps| ==> ps[i].id != ps[j].id
  }

  /** `selectedProducts.find(p => p.id === id)` finds something. */
  predicate IsSelected(s: TryOnSession, id: string) {
    exists q :: q in s.selectedProducts && q.id == id
  }

  lemma SelectedIffListed(s: TryOnSession, id: string)
    ensures IsSelected(s, id) <==> id in IdSet(s.selectedProducts)
  {
  }

  /** The selected ids are exactly the option keys, each selected once. */
  predicate Synced(s: TryOnSession) {
    IdSet(s.selectedProducts) == s.selectedOptions.Keys && NoDuplicateIds(s.selectedProducts)
  }

  /** The result image and the analysis are present together or absent together. */
  predicate ResultPaired(s: TryOnSession) {
    s.resultImage.Some? <==> s.analysis.Some?
  }

  /**
   `filter(p => p.id !== id)`: drops every product with that id and keeps
   every other one, in order.
   */
  function WithoutId(ps: seq<Product>, id: string): (r: seq<Product>)
    ensures forall q :: q in r <==> q in ps && q.id != id
    ensures |r| <= |ps|
    decreases |ps|
  {
    if |ps| == 0 then []
    else if ps[0].id == id then WithoutId(ps[1..], id)
    else [ps[0]] + WithoutId(ps[1..], id)
  }

  /** Filtering removes exactly that id from the set of ids. */
  lemma WithoutIdIds(ps: seq<Product>, id: string)
    ensures IdSet(WithoutId(ps, id)) == IdSet(ps) - {id}
  {
  }

  /** Filtering out an id that is not there changes nothing. */
  lemma {:induction false} WithoutAbsentId(ps: seq<Product>, id: string)
    requires id !in IdSet(ps)
    ensures WithoutId(ps, id) == ps
    decreases |ps|
  {
    if |ps| > 0 {
      assert ps[0] in ps;
      assert IdSet(ps[1..]) <= IdSet(ps);
      WithoutAbsentId(ps[1..], id);
      assert ps == [ps[0]] + ps[1..];
    }
  }

  /** With no duplicate ids, the first product's id occurs nowhere after it. */
  lemma HeadIdNotInTail(ps: seq<Product>)
    requires |ps| > 0 && NoDuplicateIds(ps)
    ensures forall q :: q in ps[1..] ==> q.id != ps[0].id
  {
    forall q | q in ps[1..] ensures q.id != ps[0].id {
      var k :| 0 <= k < |ps[1..]| && ps[1..][k] == q;
      assert ps[k + 1] == q;
    }
  }

  /** Filtering keeps the list free of duplicate ids. */
  lemma {:induction false} WithoutIdNoDuplicates(ps: seq<Product>, id: string)
    requires NoDuplicateIds(ps)
    ensures NoDuplicateIds(WithoutId(ps, id))
    decreases |ps|
  {
    if |ps| > 0 {
      var rest := WithoutId(ps[1..], id);
      assert NoDuplicateIds(ps[1..]);
      WithoutIdNoDuplicates(ps[1..], id);
      if ps[0].id != id {
        var r := [ps[0]] + rest;
        HeadIdNotInTail(ps);
        forall i, j | 0 <= i < j < |r| ensures r[i].id != r[j].id {
          if i == 0 {
            assert r[j] in rest;
          } else {
            assert r[i] == rest[i - 1] && r[j] == rest[j - 1];
          }
        }
      }
    }
  }

  // ---------------------------------------------------------------------------
  // Operations

  /** `updatePhotos`: sets both photo slots and nothing else. */
  function UpdatePhotos(s: TryOnSession, face: Option<string>, body: Option<string>): (r: TryOnSession)
    ensures r.facePhoto == face && r.bodyPhoto == body
    ensures r.selectedProducts == s.selectedProducts && r.selectedOptions == s.selectedOptions
    ensures r.resultImage == s.resultImage && r.analysis == s.analysis
    ensures r.recommendations == s.recommendations
  {
    s.(facePhoto := face, bodyPhoto := body)
  }

  /**
   `selectProduct`: insert-or-update. A new id is appended with its options;
   an id already selected only has its options overwritten.
   */
  function SelectProduct(s: TryOnSession, p: Product, o: SelectedOption): (r: TryOnSession)
    ensures r.selectedOptions.Keys == s.selectedOptions.Keys + {p.id}
    ensures r.selectedOptions[p.id] == o
    ensures forall id :: id in s.selectedOptions && id != p.id ==> r.selectedOptions[id] == s.selectedOptions[id]
    ensures IsSelected(s, p.id) ==> r.selectedProducts == s.selectedProducts
    ensures !IsSelected(s, p.id) ==> r.selectedProducts == s.selectedProducts + [p]
    ensures r.facePhoto == s.facePhoto && r.bodyPhoto == s.bodyPhoto
    ensures r.resultImage == s.resultImage && r.analysis == s.analysis
    ensures r.recommendations == s.recommendations
  {
    if IsSelected(s, p.id) then s.(selectedOptions := s.selectedOptions[p.id := o])
    else s.(selectedProducts := s.selectedProducts + [p], selectedOptions := s.selectedOptions[p.id := o])
  }

  /** `removeProduct`: drops the product(s) with that id and that id's options, nothing else. */
  function RemoveProduct(s: TryOnSession, id: string): (r: TryOnSession)
    ensures r.selectedProducts == WithoutId(s.selectedProducts, id)
    ensures r.selectedOptions.Keys == s.selectedOptions.Keys - {id}
    ensures forall k :: k in r.selectedOptions ==> r.selectedOptions[k] == s.selectedOptions[k]
    ensures r.facePhoto == s.facePhoto && r.bodyPhoto == s.bodyPhoto
    ensures r.resultImage == s.resultImage && r.analysis == s.analysis
    ensures r.recommendations == s.recommendations
  {
    s.(selectedProducts := WithoutId(s.selectedProducts, id),
       selectedOptions := s.selectedOptions - {id})
  }

  /** `setResult`: replaces image, analysis and recommendations together, nothing else. */
  function SetResult(s: TryOnSession, image: string, analysis: BodyAnalysis, recs: seq<SizeRecommendation>): (r: TryOnSession)
    ensures r.resultImage == Some(image) && r.analysis == Some(analysis) && r.recommendations == recs
    ensures r.facePhoto == s.facePhoto && r.bodyPhoto == s.bodyPhoto
    ensures r.selectedProducts == s.selectedProducts && r.selectedOptions == s.selectedOptions
  {
    s.(resultImage := Some(image), analysis := Some(analysis), recommendations := recs)
  }

  /** `resetSession`: the default session, back on the landing step. */
  function ResetSession(st: AppState): (r: AppState)
    ensures r == InitialState()
  {
    AppState(DefaultSession(), Landing)
  }

  // ---------------------------------------------------------------------------
  // Properties

  lemma DefaultSessionSynced()
    ensures Synced(DefaultSession()) && ResultPaired(DefaultSession())
  {
  }

  lemma SelectProductKeepsSynced(s: TryOnSession, p: Product, o: SelectedOption)
    requires Synced(s)
    ensures Synced(SelectProduct(s, p, o))
    ensures IsSelected(SelectProduct(s, p, o), p.id)
  {
    var r := SelectProduct(s, p, o);
    if !IsSelected(s, p.id) {
      var ps := s.selectedProducts;
      assert forall q :: q in ps + [p] <==> q in ps || q == p;
      assert IdSet(r.selectedProducts) == IdSet(ps) + {p.id};
      forall i, j | 0 <= i < j < |ps + [p]| ensures (ps + [p])[i].id != (ps + [p])[j].id {
        if j == |ps| {
          assert (ps + [p])[i] == ps[i] && ps[i] in ps;
        } else {
          assert (ps + [p])[i] == ps[i] && (ps + [p])[j] == ps[j];
        }
      }
      assert r.selectedProducts[|ps|] == p;
    }
  }

  lemma RemoveProductKeepsSynced(s: TryOnSession, id: string)
    requires Synced(s)
    ensures Synced(RemoveProduct(s, id))
    ensures !IsSelected(RemoveProduct(s, id), id)
  {
    WithoutIdIds(s.selectedProducts, id);
    WithoutIdNoDuplicates(s.selectedProducts, id);
  }

  /** Selecting the same product with the same options twice is the same as once. */
  lemma SelectProductIdempotent(s: TryOnSession, p: Product, o: SelectedOption)
    ensures SelectProduct(SelectProduct(s, p, o), p, o) == SelectProduct(s, p, o)
  {
    var r := SelectProduct(s, p, o);
    if !IsSelected(s, p.id) {
      assert r.selectedProducts[|s.selectedProducts|] == p;
    }
  }

  /**
   Removing a product just selected restores the selection exactly when it
   was not selected before; then the whole session is restored.
   */
  lemma SelectThenRemove(s: TryOnSession, p: Product, o: SelectedOption)
    requires Synced(s)
    ensures var r := RemoveProduct(SelectProduct(s, p, o), p.id);
      (r.selectedProducts == s.selectedProducts && r.selectedOptions == s.selectedOptions)
      <==> !IsSelected(s, p.id)
    ensures !IsSelected(s, p.id) ==> RemoveProduct(SelectProduct(s, p, o), p.id) == s
  {
    if IsSelected(s, p.id) {
      SelectThenRemoveSelected(s, p, o);
    } else {
      SelectThenRemoveFresh(s, p, o);
    }
  }

  lemma SelectThenRemoveFresh(s: TryOnSession, p: Product, o: SelectedOption)
    requires Synced(s) && !IsSelected(s, p.id)
    ensures RemoveProduct(SelectProduct(s, p, o), p.id) == s
  {
    var ps := s.selectedProducts;
    assert p.id !in IdSet(ps);
    assert p.id !in s.selectedOptions;
    assert WithoutId([p], p.id) == [];
    WithoutIdAppend(ps, [p], p.id);
    WithoutAbsentId(ps, p.id);
    assert WithoutId(ps + [p], p.id) == ps;
    assert (s.selectedOptions[p.id := o]) - {p.id} == s.selectedOptions;
  }

  lemma SelectThenRemoveSelected(s: TryOnSession, p: Product, o: SelectedOption)
    requires Synced(s) && IsSelected(s, p.id)
    ensures RemoveProduct(SelectProduct(s, p, o), p.id).selectedProducts != s.selectedProducts
  {
    var r := RemoveProduct(SelectProduct(s, p, o), p.id);
    WithoutIdIds(s.selectedProducts, p.id);
    assert p.id in IdSet(s.selectedProducts);
    assert p.id !in IdSet(r.selectedProducts);
  }

  lemma {:induction false} WithoutIdAppend(xs: seq<Product>, ys: seq<Product>, id: string)
    ensures WithoutId(xs + ys, id) == WithoutId(xs, id) + WithoutId(ys, id)
    decreases |xs|
  {
    if |xs| == 0 {
      assert xs + ys == ys;
    } else {
      assert (xs + ys)[1..] == xs[1..] + ys;
      WithoutIdAppend(xs[1..], ys, id);
    }
  }

  /** Two selections of different new products leave both selected, each with its options. */
  lemma TwoSelections(s: TryOnSession, p: Product, o: SelectedOption, q: Product, u: SelectedOption)
    requires Synced(s) && p.id != q.id
    requires !IsSelected(s, p.id) && !IsSelected(s, q.id)
    ensures var r := SelectProduct(SelectProduct(s, p, o), q, u);
      r.selectedProducts == s.selectedProducts + [p, q]
      && |r.selectedProducts| == |s.selectedProducts| + 2
      && p.id in r.selectedOptions && q.id in r.selectedOptions
      && Synced(r)
  {
    var m := SelectProduct(s, p, o);
    SelectProductKeepsSynced(s, p, o);
    assert m.selectedProducts == s.selectedProducts + [p];
    assert q.id !in s.selectedOptions.Keys;
    assert q.id !in IdSet(m.selectedProducts);
    assert !IsSelected(m, q.id);
    var r := SelectProduct(m, q, u);
    assert r.selectedProducts == s.selectedProducts + [p] + [q];
    assert s.selectedProducts + [p] + [q] == s.selectedProducts + [p, q];
    SelectProductKeepsSynced(m, q, u);
  }

  lemma OperationsKeepResultPaired(s: TryOnSession, p: Product, o: SelectedOption, id: string,
                                   face: Option<string>, body: Option<string>,
                                   image: string, a: BodyAnalysis, recs: seq<SizeRecommendation>)
    requires ResultPaired(s)
    ensures ResultPaired(SelectProduct(s, p, o)) && ResultPaired(RemoveProduct(s, id))
    ensures ResultPaired(UpdatePhotos(s, face, body)) && ResultPaired(SetResult(s, image, a, recs))
  {
  }
}
