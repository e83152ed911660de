/**
 * The kiosk session: the wizard's steps, the reducer over the app state, the effect that keeps the
 * per-background outputs keyed by the selection, and the routing between screens.
 */
module Session {
  import opened Wrappers
  import opened Seqs
  import opened Text
  import opened Backgrounds
  import opened OutputsDialog
  import opened OrderNumbers

  // Steps

  datatype Step = Home | Delivery | Background | QuickPhoto | UserInfo | Confirmation | Receipt

  /** `getStepNumber`: the progress-bar rank of a step; the home and receipt screens have none. */
  function GetStepNumber(step: Step): (r: Option<int>)
    ensures r.Some? ==> 1 <= r.value <= 5
    ensures r.None? <==> step == Home || step == Receipt
  {
    match step
    case Delivery => Some(1)
    case Background => Some(2)
    case UserInfo => Some(3)
    case Confirmation => Some(4)
    case QuickPhoto => Some(5)
    case _ => None
  }

  /** The step `handleStepClick` jumps to for a rank. */
  function StepForNumber(stepNumber: int): (r: Option<Step>)
    ensures r.Some? <==> 1 <= stepNumber <= 5
  {
    if stepNumber == 1 then Some(Delivery)
    else if stepNumber == 2 then Some(Background)
    else if stepNumber == 3 then Some(UserInfo)
    else if stepNumber == 4 then Some(Confirmation)
    else if stepNumber == 5 then Some(QuickPhoto)
    else None
  }

  /** The ranks and the click targets are inverse to each other. */
  lemma StepNumbersRoundTrip(step: Step, stepNumber: int)
    ensures GetStepNumber(step).Some? ==> StepForNumber(GetStepNumber(step).value) == Some(step)
    ensures StepForNumber(stepNumber).Some? ==> GetStepNumber(StepForNumber(stepNumber).value) == Some(stepNumber)
  {
  }

  // State and actions

  datatype AppState = AppState(
    currentStep: Step,
    visitedSteps: set<int>,
    basePrice: string,
    theme: string,
    deliveryMethod: seq<string>,
    numberOfPhotos: string,
    numberOfEmailPhotos: string,
    paymentType: string,
    selectedBackgrounds: seq<BgId>,
    backgroundOutputs: OutputMap,
    capturedPhotos: seq<string>,
    userName: string,
    emails: seq<string>,
    numberOfPeople: string,
    customerNumber: string,
    orderNumber: string,
    availablePaymentMethods: seq<string>,
    availableDeliveryMethods: seq<string>,
    maxNumberOfPhotos: int,
    maxNumberOfEmails: int,
    maxNumberOfPrints: int,
    maxDigitalBackgrounds: int,
    enabledBackgrounds: seq<int>,
    enableCustomBackgrounds: bool,
    isFreeDay: bool,
    showFreeDayOption: bool)

  const EmptyEmails: seq<string> := ["", "", "", "", ""]

  const InitialState: AppState := AppState(
    Home, {}, "10.00", "", ["email"], "1", "1", "cash", [], [], [], "", EmptyEmails, "1", "", "",
    ["cash", "debit", "credit", "check"], ["email", "prints"], 10, 5, 20, 3,
    [1, 2, 3, 4, 5, 6, 7, 8, 9, 10, 11, 12], false, false, false)

  datatype Action =
    | SetStep(step: Step)
    | SetBasePrice(basePrice: string)
    | SetTheme(theme: string)
    | SetDeliveryMethod(deliveryMethod: seq<string>)
    | SetNumberOfPhotos(numberOfPhotos: string)
    | SetNumberOfEmailPhotos(numberOfEmailPhotos: string)
    | SetPaymentType(paymentType: string)
    | SetSelectedBackgrounds(selectedBackgrounds: seq<BgId>)
    | SetBackgroundOutputs(backgroundOutputs: OutputMap)
    | SetCapturedPhotos(capturedPhotos: seq<string>)
    | SetUserName(userName: string)
    | SetEmails(emails: seq<string>)
    | SetNumberOfPeople(numberOfPeople: string)
    | SetCustomerNumber(customerNumber: string)
    | SetOrderNumber(orderNumber: string)
    | SetAvailablePaymentMethods(availablePaymentMethods: seq<string>)
    | SetAvailableDeliveryMethods(availableDeliveryMethods: seq<string>)
    | SetMaxNumberOfPhotos(maxNumberOfPhotos: int)
    | SetMaxNumberOfEmails(maxNumberOfEmails: int)
    | SetMaxNumberOfPrints(maxNumberOfPrints: int)
    | SetMaxDigitalBackgrounds(maxDigitalBackgrounds: int)
    | SetEnabledBackgrounds(enabledBackgrounds: seq<int>)
    | SetEnableCustomBackgrounds(enableCustomBackgrounds: bool)
    | SetIsFreeDay(isFreeDay: bool)
    | SetShowFreeDayOption(showFreeDayOption: bool)
    | ResetAll
    | ResetSession

  /** `s.slice(-8)`: the last eight characters, or all of a shorter text. */
  function LastEight(s: string): (r: string)
    ensures |r| == if |s| < 8 then |s| else 8
    ensures EndsWith(s, r)
  {
    if |s| <= 8 then s else s[|s| - 8..]
  }

  /** `CN-${Date.now().toString().slice(-8)}` */
  function CustomerNumberAt(now: nat): (r: string)
    ensures StartsWith(r, "CN-") && 4 <= |r| <= 11
  {
    "CN-" + LastEight(NatToString(now))
  }

  /** A SET_STEP to the delivery screen with no customer number starts an order and draws the numbers. */
  predicate StartsOrder(s: AppState, a: Action) {
    a == SetStep(Delivery) && s.customerNumber == ""
  }

  /**
   * `appReducer`. `now` is the clock and `orderNo` the number the order counter hands out; only an
   * action that starts an order reads them.
   */
  function Reduce(s: AppState, a: Action, now: nat, orderNo: string): AppState {
    match a
    case SetStep(step) =>
      var stepNumber := GetStepNumber(step);
      var visited := if stepNumber.Some? then s.visitedSteps + {stepNumber.value} else s.visitedSteps;
      var start := StartsOrder(s, a);
      s.(currentStep := step, visitedSteps := visited,
         customerNumber := if start then CustomerNumberAt(now) else s.customerNumber,
         orderNumber := if start then orderNo else s.orderNumber)
    case ResetAll => InitialState
    case ResetSession =>
      s.(currentStep := Home, visitedSteps := {}, deliveryMethod := ["email"], numberOfPhotos := "1",
         numberOfEmailPhotos := "1", paymentType := "cash", selectedBackgrounds := [], backgroundOutputs := [],
         capturedPhotos := [], userName := "", emails := EmptyEmails, numberOfPeople := "1",
         customerNumber := "", orderNumber := "")
    case _ => Store(s, a)
  }

  /**
   * The reducer's other cases: each stores its payload in one field. Only SET_CUSTOMER_NUMBER and
   * SET_ORDER_NUMBER touch the numbers, and none of them moves the wizard.
   */
  function Store(s: AppState, a: Action): (r: AppState)
    ensures r.currentStep == s.currentStep && r.visitedSteps == s.visitedSteps
    ensures r.customerNumber == if a.SetCustomerNumber? then a.customerNumber else s.customerNumber
    ensures r.orderNumber == if a.SetOrderNumber? then a.orderNumber else s.orderNumber
  {
    match a
    case SetBasePrice(v) => s.(basePrice := v)
    case SetTheme(v) => s.(theme := v)
    case SetDeliveryMethod(v) => s.(deliveryMethod := v)
    case SetNumberOfPhotos(v) => s.(numberOfPhotos := v)
    case SetNumberOfEmailPhotos(v) => s.(numberOfEmailPhotos := v)
    case SetPaymentType(v) => s.(paymentType := v)
    case SetSelectedBackgrounds(v) => s.(selectedBackgrounds := v)
    case SetBackgroundOutputs(v) => s.(backgroundOutputs := v)
    case SetCapturedPhotos(v) => s.(capturedPhotos := v)
    case SetUserName(v) => s.(userName := v)
    case SetEmails(v) => s.(emails := v)
    case SetNumberOfPeople(v) => s.(numberOfPeople := v)
    case SetCustomerNumber(v) => s.(customerNumber := v)
    case SetOrderNumber(v) => s.(orderNumber := v)
    case SetAvailablePaymentMethods(v) => s.(availablePaymentMethods := v)
    case SetAvailableDeliveryMethods(v) => s.(availableDeliveryMethods := v)
    case SetMaxNumberOfPhotos(v) => s.(maxNumberOfPhotos := v)
    case SetMaxNumberOfEmails(v) => s.(maxNumberOfEmails := v)
    case SetMaxNumberOfPrints(v) => s.(maxNumberOfPrints := v)
    case SetMaxDigitalBackgrounds(v) => s.(maxDigitalBackgrounds := v)
    case SetEnabledBackgrounds(v) => s.(enabledBackgrounds := v)
    case SetEnableCustomBackgrounds(v) => s.(enableCustomBackgrounds := v)
    case SetIsFreeDay(v) => s.(isFreeDay := v)
    case SetShowFreeDayOption(v) => s.(showFreeDayOption := v)
    case _ => s
  }

  /** SET_STEP moves to the step and adds its rank to the visited ranks, so those only ever grow. */
  lemma SetStepVisits(s: AppState, step: Step, now: nat, orderNo: string)
    ensures var r := Reduce(s, SetStep(step), now, orderNo);
            r.currentStep == step
            && r.visitedSteps == s.visitedSteps + (if GetStepNumber(step).Some? then {GetStepNumber(step).value} else {})
            && s.visitedSteps <= r.visitedSteps
  {
  }

  /** The customer and order numbers after one action. */
  lemma NumbersAfter(s: AppState, a: Action, now: nat, orderNo: string)
    ensures Reduce(s, a, now, orderNo).customerNumber ==
              if StartsOrder(s, a) then CustomerNumberAt(now)
              else if a.SetCustomerNumber? then a.customerNumber
              else if a == ResetAll || a == ResetSession then ""
              else s.customerNumber
    ensures Reduce(s, a, now, orderNo).orderNumber ==
              if StartsOrder(s, a) then orderNo
              else if a.SetOrderNumber? then a.orderNumber
              else if a == ResetAll || a == ResetSession then ""
              else s.orderNumber
  {
    if !a.SetStep? && a != ResetAll && a != ResetSession {
      assert Reduce(s, a, now, orderNo) == Store(s, a);
    }
  }

  /**
   * The customer and order numbers change only when an order starts (or through the reset and
   * number-setting actions); a started order always has a customer number.
   */
  lemma NumbersChangeOnlyAtStart(s: AppState, a: Action, now: nat, orderNo: string)
    ensures var r := Reduce(s, a, now, orderNo);
            (r.customerNumber != s.customerNumber || r.orderNumber != s.orderNumber) ==>
              StartsOrder(s, a) || a.SetCustomerNumber? || a.SetOrderNumber? || a == ResetAll || a == ResetSession
    ensures StartsOrder(s, a) ==>
              Reduce(s, a, now, orderNo).customerNumber != "" && Reduce(s, a, now, orderNo).orderNumber == orderNo
  {
    NumbersAfter(s, a, now, orderNo);
  }

  /** An action that can clear the customer number. */
  predicate ClearsCustomer(a: Action) {
    a == ResetAll || a == ResetSession || a.SetCustomerNumber?
  }

  /** The state after each of the actions in turn, the clock and the counter giving `now` and `orderNo`. */
  function Run(s: AppState, actions: seq<Action>, now: nat, orderNo: string): AppState
    decreases |actions|
  {
    if |actions| == 0 then s else Run(Reduce(s, actions[0], now, orderNo), actions[1..], now, orderNo)
  }

  /** How many of the actions start an order, i.e. draw a number from the counter. */
  function OrdersStarted(s: AppState, actions: seq<Action>, now: nat, orderNo: string): nat
    decreases |actions|
  {
    if |actions| == 0 then 0
    else (if StartsOrder(s, actions[0]) then 1 else 0)
         + OrdersStarted(Reduce(s, actions[0], now, orderNo), actions[1..], now, orderNo)
  }

  /**
   * Between two resets the counter is consulted at most once, and not at all once the session has a
   * customer number.
   */
  lemma {:induction false} OneOrderPerSession(s: AppState, actions: seq<Action>, now: nat, orderNo: string)
    requires forall i :: 0 <= i < |actions| ==> !ClearsCustomer(actions[i])
    ensures OrdersStarted(s, actions, now, orderNo) <= 1
    ensures s.customerNumber != "" ==> OrdersStarted(s, actions, now, orderNo) == 0
    decreases |actions|
  {
    if |actions| > 0 {
      var next := Reduce(s, actions[0], now, orderNo);
      assert !ClearsCustomer(actions[0]);
      NumbersAfter(s, actions[0], now, orderNo);
      OneOrderPerSession(next, actions[1..], now, orderNo);
    }
  }

  /** The fields an administrator sets, which a session reset keeps. */
  datatype Settings = Settings(
    basePrice: string, theme: string, availablePaymentMethods: seq<string>,
    availableDeliveryMethods: seq<string>, maxNumberOfPhotos: int, maxNumberOfEmails: int,
    maxNumberOfPrints: int, maxDigitalBackgrounds: int, enabledBackgrounds: seq<int>,
    enableCustomBackgrounds: bool, isFreeDay: bool, showFreeDayOption: bool)

  function SettingsOf(s: AppState): Settings {
    Settings(s.basePrice, s.theme, s.availablePaymentMethods, s.availableDeliveryMethods, s.maxNumberOfPhotos,
             s.maxNumberOfEmails, s.maxNumberOfPrints, s.maxDigitalBackgrounds, s.enabledBackgrounds,
             s.enableCustomBackgrounds, s.isFreeDay, s.showFreeDayOption)
  }

  /**
   * RESET_SESSION keeps the settings and puts every customer field back to its initial value, so it
   * agrees with RESET_ALL exactly when the settings are still the initial ones.
   */
  lemma ResetSessionKeepsSettings(s: AppState, now: nat, orderNo: string)
    ensures var r := Reduce(s, ResetSession, now, orderNo);
            SettingsOf(r) == SettingsOf(s)
            && r.(basePrice := InitialState.basePrice, theme := InitialState.theme,
                  availablePaymentMethods := InitialState.availablePaymentMethods,
                  availableDeliveryMethods := InitialState.availableDeliveryMethods,
                  maxNumberOfPhotos := InitialState.maxNumberOfPhotos,
                  maxNumberOfEmails := InitialState.maxNumberOfEmails,
                  maxNumberOfPrints := InitialState.maxNumberOfPrints,
                  maxDigitalBackgrounds := InitialState.maxDigitalBackgrounds,
                  enabledBackgrounds := InitialState.enabledBackgrounds,
                  enableCustomBackgrounds := InitialState.enableCustomBackgrounds,
                  isFreeDay := InitialState.isFreeDay,
                  showFreeDayOption := InitialState.showFreeDayOption) == InitialState
    ensures Reduce(s, ResetSession, now, orderNo) == Reduce(s, ResetAll, now, orderNo)
            <==> SettingsOf(s) == SettingsOf(InitialState)
  {
    var r := Reduce(s, ResetSession, now, orderNo);
    if SettingsOf(s) == SettingsOf(InitialState) {
      assert r == InitialState;
    }
  }

  /** Only SET_STEP and the resets move the wizard. */
  lemma OnlyStepsAndResetsMove(s: AppState, a: Action, now: nat, orderNo: string)
    requires !a.SetStep? && a != ResetAll && a != ResetSession
    ensures Reduce(s, a, now, orderNo).currentStep == s.currentStep
    ensures Reduce(s, a, now, orderNo).visitedSteps == s.visitedSteps
  {
  }

  // Moving between screens

  /** `handleStepClick`: the action it dispatches, if any. */
  function StepClick(s: AppState, stepNumber: int): (r: Option<Action>)
    ensures stepNumber !in s.visitedSteps ==> r.None?
    ensures r.Some? ==> r.value.SetStep? && GetStepNumber(r.value.step) == Some(stepNumber)
  {
    if stepNumber !in s.visitedSteps then None
    else match StepForNumber(stepNumber)
      case Some(target) => Some(SetStep(target))
      case None => None
  }

  /** A click on a visited rank lands on the step of that rank and leaves the visited ranks as they were. */
  lemma StepClickLands(s: AppState, stepNumber: int, now: nat, orderNo: string)
    requires stepNumber in s.visitedSteps && 1 <= stepNumber <= 5
    ensures StepClick(s, stepNumber).Some?
    ensures var r := Reduce(s, StepClick(s, stepNumber).value, now, orderNo);
            GetStepNumber(r.currentStep) == Some(stepNumber) && r.visitedSteps == s.visitedSteps
  {
  }

  /** The step each screen's forward button leads to (the background screen's when no dialog opens). */
  function Forward(step: Step): (r: Option<Step>)
    ensures r.Some? <==> step != Receipt
  {
    match step
    case Home => Some(Delivery)
    case Delivery => Some(Background)
    case Background => Some(UserInfo)
    case UserInfo => Some(Confirmation)
    case Confirmation => Some(QuickPhoto)
    case QuickPhoto => Some(Receipt)
    case Receipt => None
  }

  /** The step each screen's back button leads to. */
  function Backward(step: Step): (r: Option<Step>)
    ensures r.Some? <==> step != Home && step != Receipt
  {
    match step
    case Delivery => Some(Home)
    case Background => Some(Delivery)
    case UserInfo => Some(Background)
    case Confirmation => Some(UserInfo)
    case QuickPhoto => Some(Confirmation)
    case _ => None
  }

  /**
   * Forward moves one rank up the progress bar (the quick photo comes after the confirmation) and
   * back undoes it.
   */
  lemma ForwardThenBack(step: Step)
    requires step != Receipt && step != QuickPhoto
    ensures Backward(Forward(step).value) == Some(step)
    ensures step != Home ==> GetStepNumber(Forward(step).value).value == GetStepNumber(step).value + 1
  {
  }

  /** The cancel (or quit) button of a screen: the confirmation screen resets everything, the others the session. */
  function CancelAction(step: Step): (r: Action)
    ensures step == Confirmation ==> r == ResetAll
    ensures step != Confirmation ==> r == ResetSession
  {
    if step == Confirmation then ResetAll else ResetSession
  }

  /** Leaving the confirmation screen through its cancel dialog also drops the administrator's settings. */
  lemma CancelOnConfirmationDropsSettings(s: AppState, step: Step, now: nat, orderNo: string)
    ensures Reduce(s, CancelAction(Confirmation), now, orderNo) == InitialState
    ensures step != Confirmation ==> SettingsOf(Reduce(s, CancelAction(step), now, orderNo)) == SettingsOf(s)
  {
  }

  /** Both delivery methods are chosen. */
  predicate BothMethods(deliveryMethod: seq<string>) {
    "email" in deliveryMethod && "prints" in deliveryMethod
  }

  // Keeping the outputs keyed by the selection

  /** The outputs a newly selected background starts with. */
  function DefaultOutput(deliveryMethod: seq<string>): (r: Output)
    ensures r.prints == 0
    ensures r.email <==> "email" in deliveryMethod
  {
    if BothMethods(deliveryMethod) then Output(0, true) else Output(0, "email" in deliveryMethod)
  }

  /** What the effect leaves under key k. */
  function SyncedLookup(o: OutputMap, sel: seq<BgId>, deliveryMethod: seq<string>, k: string): Option<Output> {
    if k !in SelectedKeys(sel) then None
    else if Has(o, k) then Get(o, k)
    else Some(DefaultOutput(deliveryMethod))
  }

  /** Every selected background has an entry, and every entry belongs to a selected background. */
  ghost predicate InSync(o: OutputMap, sel: seq<BgId>) {
    (forall i :: 0 <= i < |sel| ==> Has(o, Key(sel[i])))
    && (forall k :: Has(o, k) ==> k in SelectedKeys(sel))
  }

  /** The keys of an object, in order. */
  function EntryKeys(o: seq<Entry>): (r: seq<string>)
    ensures |r| == |o| && forall i :: 0 <= i < |o| ==> r[i] == o[i].key
  {
    seq(|o|, i requires 0 <= i < |o| => o[i].key)
  }

  lemma HasIffEntryKey(o: seq<Entry>, k: string)
    ensures Has(o, k) <==> k in EntryKeys(o)
  {
    GetNone(o, k);
    if k in EntryKeys(o) {
      var i :| 0 <= i < |o| && EntryKeys(o)[i] == k;
    }
  }

  /** After a run of the effect, running it again has nothing to do. */
  lemma SyncedIsInSync(o: OutputMap, sel: seq<BgId>, deliveryMethod: seq<string>, r: OutputMap)
    requires forall k :: Get(r, k) == SyncedLookup(o, sel, deliveryMethod, k)
    ensures InSync(r, sel)
    ensures forall k :: SyncedLookup(r, sel, deliveryMethod, k) == Get(r, k)
  {
    forall i | 0 <= i < |sel| ensures Has(r, Key(sel[i])) {
      assert SelectedKeys(sel)[i] == Key(sel[i]);
    }
  }

  /** The app: its reducer state, whether the outputs dialog is open, and the persisted order counter. */
  class App {
    var state: AppState
    var showOutputsDialog: bool
    const counter: OrderCounter

    constructor(counter: OrderCounter)
      ensures state == InitialState && !showOutputsDialog && this.counter == counter
    {
      state := InitialState;
      showOutputsDialog := false;
      this.counter := counter;
    }

    /** `dispatch`: the counter hands out a number only when the action starts an order. */
    method Dispatch(action: Action, now: nat)
      modifies this`state, counter`stored
      ensures StartsOrder(old(state), action) ==>
                state == Reduce(old(state), action, now,
                                IssuedNumber(old(counter.stored), counter.readable && counter.writable, now))
                && (counter.readable && counter.writable ==> counter.stored == Some(CounterValue(old(counter.stored)) + 1))
      ensures !StartsOrder(old(state), action) ==>
                state == Reduce(old(state), action, now, old(state).orderNumber) && counter.stored == old(counter.stored)
    {
      var orderNo := state.orderNumber;
      if StartsOrder(state, action) {
        orderNo := counter.GetNextOrderNumber(now);
      }
      state := Reduce(state, action, now, orderNo);
    }

    /** `handleStepClick`: a rank that has not been visited does nothing. */
    method HandleStepClick(stepNumber: int, now: nat)
      modifies this`state, counter`stored
      ensures stepNumber !in old(state).visitedSteps ==> state == old(state) && counter.stored == old(counter.stored)
      ensures stepNumber in old(state).visitedSteps && 1 <= stepNumber <= 5 ==>
                GetStepNumber(state.currentStep) == Some(stepNumber) && state.visitedSteps == old(state).visitedSteps
    {
      var action := StepClick(state, stepNumber);
      if action.Some? {
        Dispatch(action.value, now);
      }
    }

    /** The background screen's Next: with both delivery methods and a selection the outputs dialog opens. */
    method BackgroundNext(now: nat)
      modifies this, counter`stored
      ensures BothMethods(old(state).deliveryMethod) && |old(state).selectedBackgrounds| > 0 ==>
                showOutputsDialog && state == old(state)
      ensures !(BothMethods(old(state).deliveryMethod) && |old(state).selectedBackgrounds| > 0) ==>
                showOutputsDialog == old(showOutputsDialog) && state == Reduce(old(state), SetStep(UserInfo), now, "")
    {
      if BothMethods(state.deliveryMethod) && |state.selectedBackgrounds| > 0 {
        showOutputsDialog := true;
      } else {
        Dispatch(SetStep(UserInfo), now);
      }
    }

    /** The outputs dialog's confirm: store the outputs, close the dialog and go on to the user's details. */
    method ConfirmOutputs(outputs: OutputMap, now: nat)
      modifies this, counter`stored
      ensures !showOutputsDialog
      ensures state == Reduce(old(state).(backgroundOutputs := outputs), SetStep(UserInfo), now, "")
      ensures state.backgroundOutputs == outputs && state.currentStep == UserInfo
    {
      Dispatch(SetBackgroundOutputs(outputs), now);
      showOutputsDialog := false;
      Dispatch(SetStep(UserInfo), now);
    }

    /**
     * The effect that keeps the outputs keyed by the selection: missing entries are added with the
     * default output, entries of backgrounds no longer selected are deleted, and the new object is
     * dispatched only when something changed.
     */
    method SyncOutputs() returns (needsUpdate: bool)
      modifies this`state
      ensures state.(backgroundOutputs := old(state).backgroundOutputs) == old(state)
      ensures forall k :: Get(state.backgroundOutputs, k)
                == SyncedLookup(old(state).backgroundOutputs, old(state).selectedBackgrounds, old(state).deliveryMethod, k)
      ensures needsUpdate <==> !InSync(old(state).backgroundOutputs, old(state).selectedBackgrounds)
      ensures !needsUpdate ==> state == old(state)
    {
      var o := state.backgroundOutputs;
      var sel := state.selectedBackgrounds;
      var keys := SelectedKeys(sel);
      var defaultOutput := DefaultOutput(state.deliveryMethod);
      var added, missing := AddMissing(o, keys, defaultOutput);
      var newOutputs, stray := DeleteUnselected(added, keys);
      needsUpdate := missing || stray;
      forall k ensures Get(newOutputs, k) == SyncedLookup(o, sel, state.deliveryMethod, k) {
        HasIffEntryKey(added, k);
      }
      SyncFlag(o, sel, keys, added, EntryKeys(added), defaultOutput, missing, needsUpdate);
      if needsUpdate {
        state := state.(backgroundOutputs := newOutputs);
      }
    }
  }

  /** After the first loop has visited `done`: each visited key without an entry has `defaultOutput`. */
  ghost predicate AddedSoFar(o: OutputMap, done: seq<string>, added: OutputMap, defaultOutput: Output) {
    forall k :: Get(added, k) == if k in done && !Has(o, k) then Some(defaultOutput) else Get(o, k)
  }

  /** Some key of `ks` has no entry in `o`. */
  ghost predicate AnyMissing(o: OutputMap, ks: seq<string>) {
    exists j :: 0 <= j < |ks| && !Has(o, ks[j])
  }

  /** One iteration of the first loop extends what it has done, and its flag, by one key. */
  lemma AddedStep(o: OutputMap, done: seq<string>, key: string, before: OutputMap, after: OutputMap,
                  defaultOutput: Output)
    requires AddedSoFar(o, done, before, defaultOutput)
    requires after == if Get(before, key).None? then Set(before, key, defaultOutput) else before
    ensures AddedSoFar(o, done + [key], after, defaultOutput)
    ensures AnyMissing(o, done + [key]) <==> AnyMissing(o, done) || Get(before, key).None?
  {
    forall k ensures Get(after, k) == if k in done + [key] && !Has(o, k) then Some(defaultOutput) else Get(o, k) {
      assert k in done + [key] <==> k in done || k == key;
    }
    assert (done + [key])[|done|] == key;
    if AnyMissing(o, done + [key]) && !AnyMissing(o, done) {
      var j :| 0 <= j < |done| + 1 && !Has(o, (done + [key])[j]);
      assert j == |done|;
    }
    if AnyMissing(o, done) {
      var j :| 0 <= j < |done| && !Has(o, done[j]);
      assert (done + [key])[j] == done[j];
    }
    if Get(before, key).Some? && !Has(o, key) {
      var j :| 0 <= j < |done| && done[j] == key;
    }
  }

  /** The effect's first loop: every key of `keys` without an entry gets `defaultOutput`. */
  method AddMissing(o: OutputMap, keys: seq<string>, defaultOutput: Output) returns (added: OutputMap, missing: bool)
    ensures forall k :: Get(added, k) == if k in keys && !Has(o, k) then Some(defaultOutput) else Get(o, k)
    ensures missing <==> exists j :: 0 <= j < |keys| && !Has(o, keys[j])
  {
    added := o;
    missing := false;
    for i := 0 to |keys|
      invariant AddedSoFar(o, keys[..i], added, defaultOutput)
      invariant missing <==> AnyMissing(o, keys[..i])
    {
      var key := keys[i];
      ghost var before := added;
      if Get(added, key).None? {
        added := Set(added, key, defaultOutput);
        missing := true;
      }
      AddedStep(o, keys[..i], key, before, added, defaultOutput);
      assert keys[..i + 1] == keys[..i] + [key];
    }
    assert keys[..|keys|] == keys;
  }

  /** After the second loop has visited `done`: each visited key outside `keys` is gone. */
  ghost predicate KeptSoFar(added: OutputMap, keys: seq<string>, done: seq<string>, kept: OutputMap) {
    forall k :: Get(kept, k) == if k in done && k !in keys then None else Get(added, k)
  }

  /** Some key of `ks` is outside `keys`. */
  ghost predicate AnyStray(ks: seq<string>, keys: seq<string>) {
    exists j :: 0 <= j < |ks| && ks[j] !in keys
  }

  /** One iteration of the second loop extends what it has done, and its flag, by one key. */
  lemma DeletedStep(added: OutputMap, keys: seq<string>, done: seq<string>, key: string,
                    before: OutputMap, after: OutputMap)
    requires KeptSoFar(added, keys, done, before)
    requires after == if key !in keys then Delete(before, key) else before
    ensures KeptSoFar(added, keys, done + [key], after)
    ensures AnyStray(done + [key], keys) <==> AnyStray(done, keys) || key !in keys
  {
    forall k ensures Get(after, k) == if k in done + [key] && k !in keys then None else Get(added, k) {
      assert k in done + [key] <==> k in done || k == key;
    }
    assert (done + [key])[|done|] == key;
    if AnyStray(done + [key], keys) && !AnyStray(done, keys) {
      var j :| 0 <= j < |done| + 1 && (done + [key])[j] !in keys;
      assert j == |done|;
    }
    if AnyStray(done, keys) {
      var j :| 0 <= j < |done| && done[j] !in keys;
      assert (done + [key])[j] == done[j];
    }
  }

  /** The effect's second loop: every entry whose key is not in `keys` is deleted. */
  method DeleteUnselected(added: OutputMap, keys: seq<string>) returns (kept: OutputMap, stray: bool)
    ensures forall k :: Get(kept, k) == if k in EntryKeys(added) && k !in keys then None else Get(added, k)
    ensures stray <==> exists j :: 0 <= j < |added| && EntryKeys(added)[j] !in keys
  {
    var existing := EntryKeys(added);
    kept := added;
    stray := false;
    for i := 0 to |existing|
      invariant KeptSoFar(added, keys, existing[..i], kept)
      invariant stray <==> AnyStray(existing[..i], keys)
    {
      var key := existing[i];
      ghost var before := kept;
      if key !in keys {
        kept := Delete(kept, key);
        stray := true;
      }
      DeletedStep(added, keys, existing[..i], key, before, kept);
      assert existing[..i + 1] == existing[..i] + [key];
    }
    assert existing[..|existing|] == existing;
  }

  /** The effect's flag is raised exactly when the object was out of step with the selection. */
  lemma SyncFlag(o: OutputMap, sel: seq<BgId>, keys: seq<string>, added: OutputMap, existing: seq<string>,
                 defaultOutput: Output, missing: bool, needsUpdate: bool)
    requires keys == SelectedKeys(sel) && existing == EntryKeys(added)
    requires forall k :: Get(added, k) == if k in keys && !Has(o, k) then Some(defaultOutput) else Get(o, k)
    requires missing <==> exists j :: 0 <= j < |keys| && !Has(o, keys[j])
    requires needsUpdate <==> missing || exists j :: 0 <= j < |existing| && existing[j] !in keys
    ensures needsUpdate <==> !InSync(o, sel)
  {
    var stray := exists j :: 0 <= j < |existing| && existing[j] !in keys;
    if stray {
      var j :| 0 <= j < |existing| && existing[j] !in keys;
      HasIffEntryKey(added, existing[j]);
      assert Has(o, existing[j]);
    }
    if !stray {
      forall k | Has(o, k) ensures k in keys {
        HasIffEntryKey(added, k);
        var j :| 0 <= j < |existing| && existing[j] == k;
      }
    }
    if missing {
      var j :| 0 <= j < |keys| && !Has(o, keys[j]);
      assert !Has(o, Key(sel[j]));
    }
  }
}
