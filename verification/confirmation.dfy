/**
 * The confirmation step: the order summary shown before payment, with the backgrounds split into
 * catalogue, themed and uploaded lists, the filled emails, the delivery and payment labels and the total.
 */
module Confirmation {
  import opened Wrappers
  import opened Seqs
  import opened Text
  import opened Backgrounds
  import opened Pricing
  import opened DeliveryPayment

  /** A themed or uploaded background as listed: its id and display name. */
  datatype NamedBackground = NamedBackground(id: string, name: string)

  /** The catalogue backgrounds that are selected, in catalogue order. */
  function ListedStandard(sel: seq<BgId>): seq<CatalogueEntry> {
    SelectedFromCatalogue(Catalogue, sel)
  }

  /** `ids.map(id => ({id, name: customBackgroundNames[id] || id}))` */
  function Named(ids: seq<BgId>): (r: seq<NamedBackground>)
    requires forall i :: 0 <= i < |ids| ==> ids[i].Str?
    ensures |r| == |ids|
    ensures forall i :: 0 <= i < |ids| ==> r[i].id == ids[i].s && r[i].name == CustomNameOr(ids[i].s)
  {
    seq(|ids|, i requires 0 <= i < |ids| => NamedBackground(ids[i].s, CustomNameOr(ids[i].s)))
  }

  /** The themed backgrounds, in selection order. */
  function ListedExtras(sel: seq<BgId>): seq<NamedBackground> {
    Named(ExtraIds(sel))
  }

  /** The uploaded backgrounds, in selection order. */
  function ListedUploads(sel: seq<BgId>): seq<NamedBackground> {
    Named(UploadedIds(sel))
  }

  /** Catalogue backgrounds appear in catalogue order, whatever order they were picked in. */
  lemma StandardListedInCatalogueOrder(sel: seq<BgId>)
    ensures IdsIncreasing(ListedStandard(sel))
  {
    CatalogueOrdered();
    SelectedFromCatalogueOrdered(Catalogue, sel);
  }

  /** A catalogue number is listed exactly when it is selected. */
  lemma StandardListedWhenSelected(sel: seq<BgId>, n: int)
    requires 1 <= n <= 12
    ensures Num(n) in sel <==> exists e :: e in ListedStandard(sel) && e.id == n
  {
    if Num(n) in sel {
      CatalogueIdsAreStandard();
      assert n in StandardBackgroundIds;
      SelectedFromCatalogueComplete(Catalogue, sel, Num(n));
    }
  }

  /** Themed and uploaded backgrounds keep selection order: listing a concatenation lists each part in turn. */
  lemma ExtrasListedInSelectionOrder(a: seq<BgId>, b: seq<BgId>)
    ensures ListedExtras(a + b) == ListedExtras(a) + ListedExtras(b)
    ensures ListedUploads(a + b) == ListedUploads(a) + ListedUploads(b)
  {
    FilterConcat(a, b, IsExtra);
    NamedConcat(ExtraIds(a), ExtraIds(b));
    FilterConcat(a, b, IsUploaded);
    NamedConcat(UploadedIds(a), UploadedIds(b));
  }

  lemma NamedConcat(a: seq<BgId>, b: seq<BgId>)
    requires forall i :: 0 <= i < |a| ==> a[i].Str?
    requires forall i :: 0 <= i < |b| ==> b[i].Str?
    ensures Named(a + b) == Named(a) + Named(b)
  {
    var ab := a + b;
    forall i | |a| <= i < |ab| ensures ab[i] == b[i - |a|] {
    }
  }

  /** `validEmails`: the entries with something besides whitespace, in order. */
  function ValidEmails(emails: seq<string>): seq<string> {
    FilledEntries(emails)
  }

  /** Filtering works entry by entry: the valid emails of a concatenation are those of each part, in turn. */
  lemma ValidEmailsInOrder(a: seq<string>, b: seq<string>)
    ensures ValidEmails(a + b) == ValidEmails(a) + ValidEmails(b)
    ensures forall e :: e in ValidEmails(a + b) <==> e in a + b && !IsBlank(e)
  {
    FilterConcat(a, b, IsFilled);
    forall e ensures e in ValidEmails(a + b) <==> e in a + b && !IsBlank(e) {
      FilterMembership(a + b, IsFilled, e);
      TrimEmptyIffBlank(e);
    }
  }

  /** The delivery line: "Not selected", or the methods joined by " & ". */
  function DeliveryText(deliveryMethod: seq<string>): (r: string)
    ensures deliveryMethod == [] ==> r == "Not selected"
    ensures |deliveryMethod| == 1 ==> r == deliveryMethod[0]
    ensures |deliveryMethod| >= 2 ==> r == deliveryMethod[0] + " & " + Join(deliveryMethod[1..], " & ")
  {
    if |deliveryMethod| == 0 then "Not selected" else Join(deliveryMethod, " & ")
  }

  /** The payment line: "Not selected" when no method is chosen. */
  function PaymentLabel(paymentType: string): (r: string)
    ensures paymentType == "" ==> r == "Not selected"
    ensures paymentType != "" ==> r == PaymentDisplayName(paymentType)
  {
    if paymentType == "" then "Not selected" else PaymentDisplayName(paymentType)
  }

  /** The total the summary shows, in cents. */
  function ConfirmationTotal(basePrice: string, numberOfPhotos: string, deliveryMethod: seq<string>,
                             sel: seq<BgId>, isFreeDay: bool): (r: int)
    ensures isFreeDay ==> r == 0
  {
    InlineTotal(ParseFloatCents(basePrice), ParseInt(numberOfPhotos), deliveryMethod, sel, isFreeDay)
  }

  /** For a duplicate-free selection the summary shows the total `calculatePricing` computes. */
  lemma ConfirmationTotalIsCanonical(basePrice: string, numberOfPhotos: string, deliveryMethod: seq<string>,
                                     sel: seq<BgId>, isFreeDay: bool)
    requires NoDuplicates(sel)
    ensures ConfirmationTotal(basePrice, numberOfPhotos, deliveryMethod, sel, isFreeDay)
            == CalculatePricing(ParseFloatCents(basePrice), ParseInt(numberOfPhotos), deliveryMethod, sel, isFreeDay).totalPrice
  {
    InlineTotalAgrees(ParseFloatCents(basePrice), ParseInt(numberOfPhotos), deliveryMethod, sel, isFreeDay);
  }
}
