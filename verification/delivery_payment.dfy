/**
 * The delivery-and-payment step: the print-count steppers, the delivery-method checkboxes (which
 * never leave the list empty) and the display names of payment methods.
 */
module DeliveryPayment {
  import opened Wrappers
  import opened Seqs
  import opened Text
  import opened Pricing

  /** The name a payment method is shown under: the two card types spelled out, others capitalised. */
  function PaymentDisplayName(choice: string): (r: string)
    ensures choice == "debit" ==> r == "Debit Card"
    ensures choice == "credit" ==> r == "Credit Card"
    ensures choice != "debit" && choice != "credit" ==>
              |r| == |choice| && (|choice| > 0 ==> r[0] == UpperChar(choice[0]) && r[1..] == choice[1..])
  {
    if choice == "debit" then "Debit Card"
    else if choice == "credit" then "Credit Card"
    else UpperFirst(choice)
  }

  /** The count the steppers start from: `parseInt(numberOfPhotos) || 1`. */
  function CurrentPhotos(numberOfPhotos: string): int {
    CountOrOne(ParseInt(numberOfPhotos))
  }

  /** `decrementPhotos`: one fewer, only while more than one. */
  function DecrementPhotos(numberOfPhotos: string): (r: string)
    ensures CurrentPhotos(numberOfPhotos) > 1 ==> ParseInt(r) == Some(CurrentPhotos(numberOfPhotos) - 1)
    ensures CurrentPhotos(numberOfPhotos) <= 1 ==> r == numberOfPhotos
  {
    var current := CurrentPhotos(numberOfPhotos);
    ParseIntOfIntToString(current - 1);
    if current > 1 then IntToString(current - 1) else numberOfPhotos
  }

  /** `incrementPhotos`: one more, only while below the print limit. */
  function IncrementPhotos(numberOfPhotos: string, maxNumberOfPrints: int): (r: string)
    ensures CurrentPhotos(numberOfPhotos) < maxNumberOfPrints ==> ParseInt(r) == Some(CurrentPhotos(numberOfPhotos) + 1)
    ensures CurrentPhotos(numberOfPhotos) >= maxNumberOfPrints ==> r == numberOfPhotos
  {
    var current := CurrentPhotos(numberOfPhotos);
    ParseIntOfIntToString(current + 1);
    if current < maxNumberOfPrints then IntToString(current + 1) else numberOfPhotos
  }

  /** Both steppers keep a count between 1 and the print limit inside that range. */
  lemma SteppersKeepRange(numberOfPhotos: string, maxNumberOfPrints: int)
    requires 1 <= CurrentPhotos(numberOfPhotos) <= maxNumberOfPrints
    ensures 1 <= CurrentPhotos(DecrementPhotos(numberOfPhotos)) <= maxNumberOfPrints
    ensures 1 <= CurrentPhotos(IncrementPhotos(numberOfPhotos, maxNumberOfPrints)) <= maxNumberOfPrints
  {
    var current := CurrentPhotos(numberOfPhotos);
    if current > 1 {
      CountOfParsed(DecrementPhotos(numberOfPhotos), current - 1);
    }
    if current < maxNumberOfPrints {
      CountOfParsed(IncrementPhotos(numberOfPhotos, maxNumberOfPrints), current + 1);
    }
  }

  lemma CountOfParsed(numberOfPhotos: string, v: int)
    requires ParseInt(numberOfPhotos) == Some(v) && v != 0
    ensures CurrentPhotos(numberOfPhotos) == v
  {
  }

  /** Stepping up then down comes back to the same count. */
  lemma IncrementThenDecrement(numberOfPhotos: string, maxNumberOfPrints: int)
    requires 1 <= CurrentPhotos(numberOfPhotos) < maxNumberOfPrints
    ensures CurrentPhotos(DecrementPhotos(IncrementPhotos(numberOfPhotos, maxNumberOfPrints))) == CurrentPhotos(numberOfPhotos)
  {
  }

  /** Text that is not a number, or zero, counts as one photo for both steppers. */
  lemma UnreadableCountsAsOne(numberOfPhotos: string, maxNumberOfPrints: int)
    requires ParseInt(numberOfPhotos).None? || ParseInt(numberOfPhotos) == Some(0)
    ensures DecrementPhotos(numberOfPhotos) == numberOfPhotos
    ensures maxNumberOfPrints > 1 ==> ParseInt(IncrementPhotos(numberOfPhotos, maxNumberOfPrints)) == Some(2)
  {
  }

  /**
   * `toggleDeliveryMethod` (the admin's payment and delivery toggles follow the same rule): an absent
   * method is appended, a present one removed unless it is the only one.
   */
  function ToggleKeepingOne<T(==)>(methods: seq<T>, choice: T): (r: seq<T>)
    ensures choice !in methods ==> r == methods + [choice]
    ensures choice in methods && |methods| <= 1 ==> r == methods
    ensures choice in methods && |methods| > 1 ==> r == Remove(methods, choice)
  {
    if choice in methods then
      if |methods| > 1 then Remove(methods, choice) else methods
    else methods + [choice]
  }

  /**
   * On a duplicate-free list the toggle never leaves the list empty, keeps it duplicate-free, and
   * removes exactly the chosen method when it removes anything.
   */
  lemma ToggleKeepsOne<T>(methods: seq<T>, choice: T)
    requires NoDuplicates(methods)
    ensures var r := ToggleKeepingOne(methods, choice);
            && NoDuplicates(r) && |r| >= 1
            && (choice in methods && |methods| > 1 ==> forall m :: m in r <==> m in methods && m != choice)
  {
    var r := ToggleKeepingOne(methods, choice);
    if choice in methods && |methods| > 1 {
      RemoveNoDuplicates(methods, choice);
      var other := if methods[0] == choice then methods[1] else methods[0];
      RemoveMembership(methods, choice, other);
      forall m ensures m in r <==> m in methods && m != choice {
        RemoveMembership(methods, choice, m);
      }
    } else if choice !in methods {
      AppendNoDuplicates(methods, choice);
    }
  }

  /** Removal keeps the other methods in their order: the gap closes. */
  lemma ToggleRemovesInPlace<T>(before: seq<T>, choice: T, after: seq<T>)
    requires choice !in before && choice !in after && |before| + |after| >= 1
    ensures ToggleKeepingOne(before + [choice] + after, choice) == before + after
  {
    var s := before + [choice] + after;
    assert s[|before|] == choice;
    assert ToggleKeepingOne(s, choice) == Remove(s, choice);
    RemoveSplit(before, after, choice);
  }

  /** Adding a method and toggling it again gives back the list. */
  lemma ToggleAddThenRemove<T>(methods: seq<T>, choice: T)
    requires choice !in methods && |methods| >= 1
    ensures ToggleKeepingOne(ToggleKeepingOne(methods, choice), choice) == methods
  {
    ToggleRemovesInPlace(methods, choice, []);
    assert methods + [choice] + [] == methods + [choice];
    assert methods + [] == methods;
  }
}
