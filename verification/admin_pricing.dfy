/** The pricing editor of `AdminPricingPage.tsx`: one option at a time is
    copied into an edit buffer (a `Partial<PricingOption>`), edited, and saved
    both to the store and to the page's own list. */
module AdminPricing {
  import opened Options
  import opened Seqs
  import opened Records
  import DataService

  /** The listed options, the id being edited and the edit buffer. */
  datatype PricingPage = PricingPage(options: seq<PricingOption>, editId: Option<string>, edit: PricingPatch)

  /** `loadPricingOptions` on mount. */
  function Load(st: DataService.Store): (r: (DataService.Store, PricingPage))
    ensures r.0 == DataService.Init(st)
    ensures r.1.options == DataService.GetPricing(st).value
    ensures r.1.editId.None? && r.1.edit == NoPricingChange
  {
    var got := DataService.GetPricing(st);
    (got.store, PricingPage(got.value, None, NoPricingChange))
  }

  /** `handleStartEdit`: the buffer becomes a full copy of the option. */
  function StartEdit(page: PricingPage, option: PricingOption): (r: PricingPage)
    ensures r.options == page.options && r.editId == Some(option.id)
    ensures forall o :: ApplyPricingPatch(o, r.edit) == option
  {
    page.(editId := Some(option.id), edit := PricingAsPatch(option))
  }

  /** `handleCancelEdit` */
  function CancelEdit(page: PricingPage): (r: PricingPage)
    ensures r.options == page.options && r.editId.None? && r.edit == NoPricingChange
  {
    page.(editId := None, edit := NoPricingChange)
  }

  /** A value typed into one of the edit fields. */
  datatype FieldValue = Name(name: string) | Description(description: string)
                      | Price(price: int) | Features(features: seq<string>)

  /** `handleChange`: the buffer carries the typed value under its key. */
  function Change(page: PricingPage, value: FieldValue): (r: PricingPage)
    ensures r.options == page.options && r.editId == page.editId && r.edit.id == page.edit.id
    ensures value.Name? ==> r.edit == page.edit.(name := Some(value.name))
    ensures value.Description? ==> r.edit == page.edit.(description := Some(value.description))
    ensures value.Price? ==> r.edit == page.edit.(pricePerNight := Some(value.price))
    ensures value.Features? ==> r.edit == page.edit.(features := Some(value.features))
  {
    match value
    case Name(n) => page.(edit := page.edit.(name := Some(n)))
    case Description(d) => page.(edit := page.edit.(description := Some(d)))
    case Price(p) => page.(edit := page.edit.(pricePerNight := Some(p)))
    case Features(f) => page.(edit := page.edit.(features := Some(f)))
  }

  /** The buffer carries every key `handleSave` insists on. */
  predicate Complete(u: PricingPatch) {
    u.name.Some? && u.description.Some? && u.pricePerNight.Some? && u.features.Some?
  }

  function OptionIdIs(id: string): PricingOption -> bool { (o: PricingOption) => o.id == id }

  /** `handleSave(id)`: nothing happens without a (non-empty) buffer id or
      with an incomplete buffer; otherwise the store is updated, every listed
      option with that id gets the buffer spread over it, and editing ends. */
  function Save(st: DataService.Store, page: PricingPage, id: string): (r: (DataService.Store, PricingPage))
    ensures page.edit.id.None? || page.edit.id == Some("") ==> r == (st, page)
    ensures !Complete(page.edit) ==> r == (st, page)
    ensures page.edit.id.Some? && page.edit.id != Some("") && Complete(page.edit) ==>
              && r.0 == DataService.UpdatePricing(st, id, page.edit).store
              && r.1.editId.None? && r.1.edit == NoPricingChange
              && |r.1.options| == |page.options|
              && (forall i :: 0 <= i < |page.options| && page.options[i].id != id ==>
                    r.1.options[i] == page.options[i])
              && (forall i :: 0 <= i < |page.options| && page.options[i].id == id ==>
                    r.1.options[i] == ApplyPricingPatch(page.options[i], page.edit))
  {
    if page.edit.id.None? || page.edit.id == Some("") then (st, page)
    else if !Complete(page.edit) then (st, page)
    else
      var stored := DataService.UpdatePricing(st, id, page.edit).store;
      var options := MapWhere(page.options, OptionIdIs(id), o => ApplyPricingPatch(o, page.edit));
      (stored, PricingPage(options, None, NoPricingChange))
  }

  predicate UniqueIds(options: seq<PricingOption>) {
    forall i, j :: 0 <= i < j < |options| ==> options[i].id != options[j].id
  }

  /** Saving an option straight after starting to edit it leaves the list as
      it was, when ids are distinct. */
  lemma SaveUneditedKeepsList(st: DataService.Store, page: PricingPage, k: int)
    requires 0 <= k < |page.options| && UniqueIds(page.options) && page.options[k].id != ""
    ensures var started := StartEdit(page, page.options[k]);
      Save(st, started, page.options[k].id).1.options == page.options
  {
    var option := page.options[k];
    var started := StartEdit(page, option);
    var saved := Save(st, started, option.id).1.options;
    forall i | 0 <= i < |page.options| && page.options[i].id == option.id
      ensures i == k
    {
    }
  }

  /** `handleFeatureChange(index, value)`: exactly one feature is replaced;
      without a feature list in the buffer nothing happens. The page only
      offers indices of existing features. */
  function FeatureChange(page: PricingPage, index: int, value: string): (r: PricingPage)
    requires page.edit.features.Some? ==> 0 <= index < |page.edit.features.value|
    ensures page.edit.features.None? ==> r == page
    ensures page.edit.features.Some? ==>
              var before := page.edit.features.value;
              && r == page.(edit := page.edit.(features := r.edit.features))
              && r.edit.features.Some?
              && |r.edit.features.value| == |before|
              && r.edit.features.value[index] == value
              && forall j :: 0 <= j < |before| && j != index ==> r.edit.features.value[j] == before[j]
  {
    if page.edit.features.None? then page
    else page.(edit := page.edit.(features := Some(page.edit.features.value[index := value])))
  }

  /** `handleAddFeature`: one empty feature is appended. */
  function AddFeature(page: PricingPage): (r: PricingPage)
    ensures page.edit.features.None? ==> r == page
    ensures page.edit.features.Some? ==>
              && r == page.(edit := page.edit.(features := r.edit.features))
              && r.edit.features == Some(page.edit.features.value + [""])
  {
    if page.edit.features.None? then page
    else page.(edit := page.edit.(features := Some(page.edit.features.value + [""])))
  }

  /** `handleRemoveFeature(index)`: `splice(index, 1)` on the buffer's list. */
  function RemoveFeature(page: PricingPage, index: int): (r: PricingPage)
    ensures page.edit.features.None? ==> r == page
    ensures page.edit.features.Some? ==>
              && r == page.(edit := page.edit.(features := r.edit.features))
              && r.edit.features == Some(RemoveOne(page.edit.features.value, index))
    ensures page.edit.features.Some? && 0 <= index < |page.edit.features.value| ==>
              var before := page.edit.features.value;
              && |r.edit.features.value| == |before| - 1
              && (forall j :: 0 <= j < index ==> r.edit.features.value[j] == before[j])
              && (forall j :: index <= j < |before| - 1 ==> r.edit.features.value[j] == before[j + 1])
  {
    if page.edit.features.None? then page
    else
      RemoveOneFacts(page.edit.features.value, index);
      page.(edit := page.edit.(features := Some(RemoveOne(page.edit.features.value, index))))
  }

  lemma RemoveOneFacts(s: seq<string>, i: int)
    ensures 0 <= i < |s| ==>
              && |RemoveOne(s, i)| == |s| - 1
              && (forall j :: 0 <= j < i ==> RemoveOne(s, i)[j] == s[j])
              && (forall j :: i <= j < |s| - 1 ==> RemoveOne(s, i)[j] == s[j + 1])
  {
    if 0 <= i < |s| {
      RemoveOneInRange(s, i);
    }
  }

  /** Adding a feature and removing the last one restores the buffer. */
  lemma AddThenRemoveLast(page: PricingPage)
    requires page.edit.features.Some?
    ensures RemoveFeature(AddFeature(page), |page.edit.features.value|) == page
  {
    var f := page.edit.features.value;
    assert (f + [""])[..|f|] == f;
    assert (f + [""])[|f| + 1..] == [];
    assert (f + [""])[..|f|] + (f + [""])[|f| + 1..] == f;
  }

  /** Removing with index -1 drops the last feature, as `splice(-1, 1)` does. */
  lemma RemoveMinusOneDropsLast(page: PricingPage)
    requires page.edit.features.Some? && |page.edit.features.value| > 0
    ensures var f := page.edit.features.value;
      RemoveFeature(page, -1).edit.features == Some(f[..|f| - 1])
  {
    var f := page.edit.features.value;
    assert f[|f|..] == [];
    assert f[..|f| - 1] + f[|f|..] == f[..|f| - 1];
  }

  /** Changing a feature and changing it back restores the buffer. */
  lemma ChangeFeatureBack(page: PricingPage, index: int, value: string)
    requires page.edit.features.Some? && 0 <= index < |page.edit.features.value|
    ensures FeatureChange(FeatureChange(page, index, value), index, page.edit.features.value[index]) == page
  {
    var f := page.edit.features.value;
    assert f[index := value][index := f[index]] == f;
  }
}
