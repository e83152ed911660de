/**
 * The kiosk's price rule (`calculatePricing`) and the copy of it that the confirmation and receipt
 * screens compute inline. Money is in integer cents: a print costs 2.00, every chargeable background
 * after the first costs 2.50, an uploaded photo background costs 5.00 and themed extras are free;
 * on a free day the total is 0.
 */
module Pricing {
  import opened Wrappers
  import opened Seqs
  import opened Backgrounds

  const PrintPrice: int := 200
  const AdditionalBackgroundFee: int := 250
  const UploadFee: int := 500

  /** `parseFloat(basePrice) || 0`, the price already read as cents (`None` is NaN). */
  function PriceOrZero(basePrice: Option<int>): int {
    basePrice.UnwrapOr(0)
  }

  /** `parseInt(count) || 1`: NaN and 0 both read as 1. */
  function CountOrOne(count: Option<int>): (r: int)
    ensures r != 0
    ensures count.Some? && count.value != 0 ==> r == count.value
  {
    if count.None? || count.value == 0 then 1 else count.value
  }

  /** The print charge: 2.00 per photo when prints are among the delivery methods. */
  function PrintCost(photos: int, deliveryMethod: seq<string>): (r: int)
    ensures "prints" in deliveryMethod ==> r == PrintPrice * photos
    ensures "prints" !in deliveryMethod ==> r == 0
  {
    if "prints" in deliveryMethod then photos * 2 * 100 else 0
  }

  function StandardIds(sel: seq<BgId>): seq<BgId> { Filter(sel, IsStandard) }
  function ExtraIds(sel: seq<BgId>): seq<BgId> { Filter(sel, IsExtra) }
  function UploadedIds(sel: seq<BgId>): seq<BgId> { Filter(sel, IsUploaded) }

  predicate IsUnclassified(id: BgId) {
    !IsStandard(id) && !IsExtra(id) && !IsUploaded(id)
  }

  /** The fields `calculatePricing` returns; amounts in cents. */
  datatype Pricing = Pricing(
    price: int,
    photos: int,
    printCost: int,
    standardBackgrounds: nat,
    extraBackgrounds: nat,
    uploadedCustomBackgrounds: nat,
    uploadedCustomBackgroundCost: int,
    additionalBackgroundCount: nat,
    additionalBackgroundCost: int,
    totalPrice: int,
    isFreeDay: bool)

  /** `max(0, chargeable - 1)`: the first chargeable background is included in the base price. */
  function AdditionalCount(chargeable: nat): (r: nat)
    ensures r == 0 <==> chargeable <= 1
    ensures chargeable >= 1 ==> r + 1 == chargeable
  {
    if chargeable >= 1 then chargeable - 1 else 0
  }

  function CalculatePricing(basePrice: Option<int>, numberOfPhotos: Option<int>, deliveryMethod: seq<string>,
                            sel: seq<BgId>, isFreeDay: bool): (r: Pricing)
    ensures isFreeDay ==> r.totalPrice == 0
    ensures !isFreeDay ==> r.totalPrice == r.price + r.printCost + r.uploadedCustomBackgroundCost + r.additionalBackgroundCost
    ensures r.printCost == (if "prints" in deliveryMethod then PrintPrice * r.photos else 0)
    ensures r.uploadedCustomBackgroundCost == UploadFee * r.uploadedCustomBackgrounds
    ensures r.additionalBackgroundCost == AdditionalBackgroundFee * r.additionalBackgroundCount
    ensures r.additionalBackgroundCount == 0 <==> r.standardBackgrounds + r.uploadedCustomBackgrounds <= 1
    ensures r.standardBackgrounds + r.extraBackgrounds + r.uploadedCustomBackgrounds <= |sel|
  {
    var price := PriceOrZero(basePrice);
    var photos := CountOrOne(numberOfPhotos);
    var printCost := PrintCost(photos, deliveryMethod);
    var standard := |StandardIds(sel)|;
    var extra := |ExtraIds(sel)|;
    var uploaded := |UploadedIds(sel)|;
    var uploadedCost := uploaded * 5 * 100;
    var additional := AdditionalCount(standard + uploaded);
    var additionalCost := additional * 250;
    ClassCountsPartition(sel);
    Pricing(price, photos, printCost, standard, extra, uploaded, uploadedCost, additional, additionalCost,
            if isFreeDay then 0 else price + printCost + uploadedCost + additionalCost, isFreeDay)
  }

  /** Every id is in exactly one of the three classes or in none: the class counts partition the selection. */
  lemma {:induction false} ClassCountsPartition(sel: seq<BgId>)
    ensures |StandardIds(sel)| + |ExtraIds(sel)| + |UploadedIds(sel)| + |Filter(sel, IsUnclassified)| == |sel|
    decreases |sel|
  {
    if |sel| > 0 {
      ClassCountsPartition(sel[1..]);
      ClassesDisjoint(sel[0]);
    }
  }

  /** Class counts of a concatenation add up. */
  lemma ClassCountsConcat(a: seq<BgId>, b: seq<BgId>)
    ensures |StandardIds(a + b)| == |StandardIds(a)| + |StandardIds(b)|
    ensures |ExtraIds(a + b)| == |ExtraIds(a)| + |ExtraIds(b)|
    ensures |UploadedIds(a + b)| == |UploadedIds(a)| + |UploadedIds(b)|
  {
    FilterConcat(a, b, IsStandard);
    FilterConcat(a, b, IsExtra);
    FilterConcat(a, b, IsUploaded);
  }

  /** Selecting or deselecting a themed extra background changes no charge, only the extra count. */
  lemma ExtraIdsAreFree(basePrice: Option<int>, numberOfPhotos: Option<int>, deliveryMethod: seq<string>,
                        pre: seq<BgId>, post: seq<BgId>, id: BgId, isFreeDay: bool)
    requires IsExtra(id)
    ensures var without := CalculatePricing(basePrice, numberOfPhotos, deliveryMethod, pre + post, isFreeDay);
            var with := CalculatePricing(basePrice, numberOfPhotos, deliveryMethod, pre + [id] + post, isFreeDay);
            with == without.(extraBackgrounds := without.extraBackgrounds + 1)
  {
    ClassesDisjoint(id);
    ClassCountsConcat(pre, post);
    ClassCountsConcat(pre, [id]);
    ClassCountsConcat(pre + [id], post);
  }

  /**
   * With at least one chargeable background already selected (and no free day), adding a catalogue
   * background raises the total by 2.50 and adding an uploaded one by 7.50; the first chargeable
   * background adds nothing if it is from the catalogue and only the 5.00 upload fee if it is uploaded.
   */
  lemma MarginalBackgroundCost(basePrice: Option<int>, numberOfPhotos: Option<int>, deliveryMethod: seq<string>,
                               sel: seq<BgId>, id: BgId)
    ensures var before := CalculatePricing(basePrice, numberOfPhotos, deliveryMethod, sel, false);
            var after := CalculatePricing(basePrice, numberOfPhotos, deliveryMethod, sel + [id], false);
            var chargeable := before.standardBackgrounds + before.uploadedCustomBackgrounds;
            && (IsStandard(id) ==> after.totalPrice == before.totalPrice + (if chargeable >= 1 then 250 else 0))
            && (IsUploaded(id) ==> after.totalPrice == before.totalPrice + (if chargeable >= 1 then 750 else 500))
            && (!IsStandard(id) && !IsUploaded(id) ==> after.totalPrice == before.totalPrice)
  {
    ClassesDisjoint(id);
    ClassCountsConcat(sel, [id]);
  }

  /** Base 10.00, three photos printed, two catalogue backgrounds: 6.00 prints + 2.50 extra = 18.50. */
  lemma WorkedExample()
    ensures var r := CalculatePricing(Some(1000), Some(3), ["prints"], [Num(1), Num(2)], false);
            r.printCost == 600 && r.additionalBackgroundCost == 250 && r.totalPrice == 1850
  {
    assert StandardIds([Num(1), Num(2)]) == [Num(1), Num(2)];
    assert UploadedIds([Num(1), Num(2)]) == [];
  }

  // The inline copy on the confirmation and receipt screens counts catalogue backgrounds by filtering
  // the catalogue (`backgrounds.filter(bg => selectedBackgrounds.includes(bg.id))`).

  /** The catalogue entries whose id is selected, in catalogue order. */
  function SelectedFromCatalogue(cat: seq<CatalogueEntry>, sel: seq<BgId>): (r: seq<CatalogueEntry>)
    ensures |r| <= |cat|
    ensures forall i :: 0 <= i < |r| ==> r[i] in cat && Num(r[i].id) in sel
    decreases |cat|
  {
    if |cat| == 0 then []
    else (if Num(cat[0].id) in sel then [cat[0]] else []) + SelectedFromCatalogue(cat[1..], sel)
  }

  /** Total from the inline copy of the price rule. */
  function InlineTotal(basePrice: Option<int>, numberOfPhotos: Option<int>, deliveryMethod: seq<string>,
                       sel: seq<BgId>, isFreeDay: bool): (r: int)
    ensures isFreeDay ==> r == 0
  {
    var price := PriceOrZero(basePrice);
    var photos := CountOrOne(numberOfPhotos);
    var printCost := PrintCost(photos, deliveryMethod);
    var standard := |SelectedFromCatalogue(Catalogue, sel)|;
    var uploaded := |UploadedIds(sel)|;
    var uploadedCost := uploaded * 5 * 100;
    var additionalCost := AdditionalCount(standard + uploaded) * 250;
    if isFreeDay then 0 else price + printCost + uploadedCost + additionalCost
  }

  /** How many elements of `sel` are numbers listed in `ids`. */
  function NumbersAmong(sel: seq<BgId>, ids: seq<int>): nat
    decreases |sel|
  {
    if |sel| == 0 then 0 else (if sel[0].Num? && sel[0].n in ids then 1 else 0) + NumbersAmong(sel[1..], ids)
  }

  lemma {:induction false} StandardCountIsNumbersAmong(sel: seq<BgId>)
    ensures |StandardIds(sel)| == NumbersAmong(sel, StandardBackgroundIds)
    decreases |sel|
  {
    if |sel| > 0 {
      StandardCountIsNumbersAmong(sel[1..]);
    }
  }

  lemma {:induction false} NumbersAmongCons(sel: seq<BgId>, a: int, ids: seq<int>)
    requires a !in ids
    ensures NumbersAmong(sel, [a] + ids) == NumbersAmong(sel, ids) + multiset(sel)[Num(a)]
    decreases |sel|
  {
    if |sel| > 0 {
      NumbersAmongCons(sel[1..], a, ids);
      assert sel == [sel[0]] + sel[1..];
    }
  }

  /** Filtering a duplicate-free catalogue by a duplicate-free selection counts the selected catalogue numbers. */
  lemma {:induction false} SelectedFromCatalogueCount(cat: seq<CatalogueEntry>, sel: seq<BgId>)
    requires NoDuplicates(CatalogueIds(cat)) && NoDuplicates(sel)
    ensures |SelectedFromCatalogue(cat, sel)| == NumbersAmong(sel, CatalogueIds(cat))
    decreases |cat|
  {
    var ids := CatalogueIds(cat);
    if |cat| == 0 {
      assert ids == [];
      NumbersAmongEmpty(sel);
    } else {
      assert CatalogueIds(cat[1..]) == ids[1..];
      NoDuplicatesCons(ids);
      SelectedFromCatalogueCount(cat[1..], sel);
      assert ids == [cat[0].id] + ids[1..];
      NumbersAmongCons(sel, cat[0].id, ids[1..]);
      OccurrencesOfDuplicateFree(sel, Num(cat[0].id));
    }
  }

  lemma {:induction false} NumbersAmongEmpty(sel: seq<BgId>)
    ensures NumbersAmong(sel, []) == 0
    decreases |sel|
  {
    if |sel| > 0 {
      NumbersAmongEmpty(sel[1..]);
    }
  }

  /** For a duplicate-free selection, the inline copy charges what `calculatePricing` charges. */
  lemma InlineTotalAgrees(basePrice: Option<int>, numberOfPhotos: Option<int>, deliveryMethod: seq<string>,
                          sel: seq<BgId>, isFreeDay: bool)
    requires NoDuplicates(sel)
    ensures InlineTotal(basePrice, numberOfPhotos, deliveryMethod, sel, isFreeDay)
            == CalculatePricing(basePrice, numberOfPhotos, deliveryMethod, sel, isFreeDay).totalPrice
  {
    StandardCatalogueCount(sel);
  }

  /** For a duplicate-free selection, filtering the catalogue finds as many entries as there are catalogue numbers selected. */
  lemma StandardCatalogueCount(sel: seq<BgId>)
    requires NoDuplicates(sel)
    ensures |SelectedFromCatalogue(Catalogue, sel)| == |StandardIds(sel)|
  {
    CatalogueIdsAreStandard();
    StandardIdsDistinct();
    SelectedFromCatalogueCount(Catalogue, sel);
    StandardCountIsNumbersAmong(sel);
  }

  lemma StandardIdsDistinct()
    ensures NoDuplicates(StandardBackgroundIds)
  {
  }

  /** The catalogue filter only asks which ids are selected, not how often. */
  lemma {:induction false} SelectedFromCatalogueSameMembers(cat: seq<CatalogueEntry>, s1: seq<BgId>, s2: seq<BgId>)
    requires forall x :: x in s1 <==> x in s2
    ensures SelectedFromCatalogue(cat, s1) == SelectedFromCatalogue(cat, s2)
    decreases |cat|
  {
    if |cat| > 0 {
      SelectedFromCatalogueSameMembers(cat[1..], s1, s2);
    }
  }

  /**
   * With a catalogue id selected twice the two copies differ: `calculatePricing` charges the repeat
   * as a second background (2.50 more), the inline copy lists it once.
   */
  lemma RepeatedIdDisagrees(basePrice: Option<int>, numberOfPhotos: Option<int>, deliveryMethod: seq<string>, k: int)
    requires 1 <= k <= 12
    ensures InlineTotal(basePrice, numberOfPhotos, deliveryMethod, [Num(k), Num(k)], false) + 250
            == CalculatePricing(basePrice, numberOfPhotos, deliveryMethod, [Num(k), Num(k)], false).totalPrice
  {
    RepeatedIdCounts(k);
  }

  lemma RepeatedIdCounts(k: int)
    requires 1 <= k <= 12
    ensures |SelectedFromCatalogue(Catalogue, [Num(k), Num(k)])| == 1
    ensures |StandardIds([Num(k), Num(k)])| == 2 && |UploadedIds([Num(k), Num(k)])| == 0
  {
    RepeatedIdListedOnce(k);
    RepeatedIdCharged(k);
  }

  lemma RepeatedIdCharged(k: int)
    requires 1 <= k <= 12
    ensures |StandardIds([Num(k), Num(k)])| == 2 && |UploadedIds([Num(k), Num(k)])| == 0
  {
    StandardIsOneToTwelve(Num(k));
    FilterAll([Num(k), Num(k)], IsStandard);
    FilterNone([Num(k), Num(k)], IsUploaded);
  }

  lemma RepeatedIdListedOnce(k: int)
    requires 1 <= k <= 12
    ensures |SelectedFromCatalogue(Catalogue, [Num(k), Num(k)])| == 1
  {
    CatalogueIdsAreStandard();
    RepeatedIdListedOnceIn(Catalogue, k);
  }

  lemma RepeatedIdListedOnceIn(cat: seq<CatalogueEntry>, k: int)
    requires CatalogueIds(cat) == StandardBackgroundIds
    requires 1 <= k <= 12
    ensures |SelectedFromCatalogue(cat, [Num(k), Num(k)])| == 1
  {
    var twice, once := [Num(k), Num(k)], [Num(k)];
    StandardIsOneToTwelve(Num(k));
    SelectedFromCatalogueSameMembers(cat, twice, once);
    StandardIdsDistinct();
    SelectedFromCatalogueCount(cat, once);
    StandardCountIsNumbersAmong(once);
    FilterAll(once, IsStandard);
  }

  predicate IdsIncreasing(entries: seq<CatalogueEntry>) {
    forall i, j :: 0 <= i < j < |entries| ==> entries[i].id < entries[j].id
  }

  /**
   * The inline copy lists catalogue backgrounds in catalogue order, so their ids are strictly
   * increasing whatever order they were selected in.
   */
  lemma {:induction false} SelectedFromCatalogueOrdered(cat: seq<CatalogueEntry>, sel: seq<BgId>)
    requires IdsIncreasing(cat)
    ensures IdsIncreasing(SelectedFromCatalogue(cat, sel))
    decreases |cat|
  {
    if |cat| > 0 {
      SelectedFromCatalogueOrdered(cat[1..], sel);
      var rest := SelectedFromCatalogue(cat[1..], sel);
      if Num(cat[0].id) in sel {
        SelectedAfterFirst(cat, sel);
        PrependIncreasing(cat[0], rest);
        assert SelectedFromCatalogue(cat, sel) == [cat[0]] + rest;
      } else {
        assert SelectedFromCatalogue(cat, sel) == rest;
      }
    }
  }

  /** What the filter keeps from the tail of an increasing catalogue comes after its head. */
  lemma SelectedAfterFirst(cat: seq<CatalogueEntry>, sel: seq<BgId>)
    requires IdsIncreasing(cat) && |cat| > 0
    ensures forall i :: 0 <= i < |SelectedFromCatalogue(cat[1..], sel)| ==> cat[0].id < SelectedFromCatalogue(cat[1..], sel)[i].id
  {
    var rest := SelectedFromCatalogue(cat[1..], sel);
    forall i | 0 <= i < |rest| ensures cat[0].id < rest[i].id {
      var k :| 0 <= k < |cat[1..]| && cat[1..][k] == rest[i];
      assert cat[k + 1] == rest[i];
    }
  }

  lemma PrependIncreasing(e: CatalogueEntry, rest: seq<CatalogueEntry>)
    requires IdsIncreasing(rest)
    requires forall i :: 0 <= i < |rest| ==> e.id < rest[i].id
    ensures IdsIncreasing([e] + rest)
  {
    var r := [e] + rest;
    forall i, j | 0 <= i < j < |r| ensures r[i].id < r[j].id {
      assert r[j] == rest[j - 1];
      if i > 0 {
        assert r[i] == rest[i - 1];
      }
    }
  }

  /** Every selected catalogue number is listed by the catalogue filter. */
  lemma {:induction false} SelectedFromCatalogueComplete(cat: seq<CatalogueEntry>, sel: seq<BgId>, x: BgId)
    requires x in sel && x.Num? && x.n in CatalogueIds(cat)
    ensures exists e :: e in SelectedFromCatalogue(cat, sel) && e.id == x.n
    decreases |cat|
  {
    var r := SelectedFromCatalogue(cat, sel);
    if x.n == cat[0].id {
      assert r[0] == cat[0];
    } else {
      assert CatalogueIds(cat) == [cat[0].id] + CatalogueIds(cat[1..]);
      SelectedFromCatalogueComplete(cat[1..], sel, x);
      var e :| e in SelectedFromCatalogue(cat[1..], sel) && e.id == x.n;
      assert e in r;
    }
  }

  lemma CatalogueOrdered()
    ensures IdsIncreasing(Catalogue)
  {
  }
}
