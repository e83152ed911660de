/**
 * The administrator's settings dialog: enabling catalogue backgrounds (kept in ascending order),
 * the select-all switch, the free-day checkbox, the hold-to-repeat number steppers and the order
 * counter panel. The payment and delivery checkboxes use `DeliveryPayment.ToggleKeepingOne`.
 */
module Admin {
  import opened Wrappers
  import opened Seqs
  import opened Text
  import opened Backgrounds
  import opened DeliveryPayment
  import opened OrderNumbers
  import opened JsMath

  // ---------------------------------------------------------------------------------------------
  // Enabled backgrounds

  predicate Ascending(s: seq<int>) {
    forall i, j :: 0 <= i < j < |s| ==> s[i] <= s[j]
  }

  /** Inserts `x` into an ascending list before the first larger-or-equal element. */
  function Insert(x: int, s: seq<int>): (r: seq<int>)
    requires Ascending(s)
    ensures Ascending(r)
    ensures multiset(r) == multiset(s) + multiset{x}
    decreases |s|
  {
    if |s| == 0 then [x]
    else if x <= s[0] then [x] + s
    else
      var rest := Insert(x, s[1..]);
      InsertBehindHead(x, s, rest);
      [s[0]] + rest
  }

  /** Putting the head of an ascending list back before its tail with `x` inserted, `x` above the head. */
  lemma InsertBehindHead(x: int, s: seq<int>, rest: seq<int>)
    requires Ascending(s) && |s| > 0 && s[0] < x
    requires Ascending(rest) && multiset(rest) == multiset(s[1..]) + multiset{x}
    ensures Ascending([s[0]] + rest)
    ensures multiset([s[0]] + rest) == multiset(s) + multiset{x}
  {
    assert s == [s[0]] + s[1..];
    forall j | 0 <= j < |rest| ensures s[0] <= rest[j] {
      assert rest[j] in multiset(rest);
      if rest[j] != x {
        assert rest[j] in multiset(s[1..]);
      }
    }
    var r := [s[0]] + rest;
    forall i, j | 0 <= i < j < |r| ensures r[i] <= r[j] {
      assert r[j] == rest[j - 1];
      if i > 0 {
        assert r[i] == rest[i - 1];
      }
    }
  }

  /** `list.sort((a, b) => a - b)`: the same numbers in ascending order. */
  function SortAscending(s: seq<int>): (r: seq<int>)
    ensures Ascending(r)
    ensures multiset(r) == multiset(s)
    decreases |s|
  {
    if |s| == 0 then []
    else
      assert s == [s[0]] + s[1..];
      Insert(s[0], SortAscending(s[1..]))
  }

  /** `toggleBackground(bgId)` of the settings: removal keeps at least one; an addition re-sorts. */
  function ToggleEnabledBackground(enabled: seq<int>, bgId: int): (r: seq<int>)
    ensures bgId !in enabled ==> Ascending(r) && multiset(r) == multiset(enabled) + multiset{bgId}
  {
    if bgId in enabled then ToggleKeepingOne(enabled, bgId)
    else SortAscending(enabled + [bgId])
  }

  /** Removing an element from an ascending list leaves it ascending. */
  lemma {:induction false} RemoveAscending(s: seq<int>, x: int)
    requires Ascending(s)
    ensures Ascending(Remove(s, x))
    decreases |s|
  {
    if |s| > 0 {
      RemoveAscending(s[1..], x);
      var rest := Remove(s[1..], x);
      RemoveElements(s[1..], x);
      assert forall j :: 0 <= j < |rest| ==> rest[j] in s[1..];
    }
  }

  /** A list in which two positions hold the same value counts that value at least twice. */
  lemma RepeatCountsTwice(s: seq<int>, i: int, j: int)
    requires 0 <= i < j < |s| && s[i] == s[j]
    ensures multiset(s)[s[i]] >= 2
  {
    assert s == s[..i] + [s[i]] + s[i + 1..j] + [s[j]] + s[j + 1..];
  }

  /** A list whose every value is counted at most once is duplicate-free. */
  lemma CountsOnceNoDuplicates(s: seq<int>)
    requires forall x :: multiset(s)[x] <= 1
    ensures NoDuplicates(s)
  {
    forall i, j | 0 <= i < j < |s| ensures s[i] != s[j] {
      if s[i] == s[j] {
        RepeatCountsTwice(s, i, j);
      }
    }
  }

  /**
   * Toggling a background in a duplicate-free list: enabling adds exactly that id and keeps the
   * list ascending and duplicate-free; disabling removes exactly it unless it is the only one;
   * an ascending list stays ascending; the list is never left empty.
   */
  lemma ToggleEnabledBackgroundMeans(enabled: seq<int>, bgId: int)
    requires NoDuplicates(enabled)
    ensures var r := ToggleEnabledBackground(enabled, bgId);
            && NoDuplicates(r) && |r| >= 1
            && (forall n :: n in r <==> if n == bgId then bgId !in enabled || |enabled| == 1 else n in enabled)
            && (Ascending(enabled) ==> Ascending(r))
  {
    var r := ToggleEnabledBackground(enabled, bgId);
    if bgId in enabled {
      ToggleKeepsOne(enabled, bgId);
      if |enabled| > 1 {
        RemoveAscendingIf(enabled, bgId);
        RemoveMembership(enabled, bgId, bgId);
      }
    } else {
      forall x ensures multiset(r)[x] <= 1 {
        OccurrencesOfDuplicateFree(enabled, x);
      }
      CountsOnceNoDuplicates(r);
      forall n ensures n in r <==> n in enabled || n == bgId {
        assert n in r <==> n in multiset(r);
      }
      assert |r| == |multiset(r)|;
    }
  }

  lemma RemoveAscendingIf(s: seq<int>, x: int)
    ensures Ascending(s) ==> Ascending(Remove(s, x))
  {
    if Ascending(s) {
      RemoveAscending(s, x);
    }
  }

  /** `toggleAllBackgrounds`: all twelve enabled becomes just the first, anything else becomes all twelve. */
  function ToggleAllBackgrounds(enabled: seq<int>): (r: seq<int>)
    ensures |enabled| == |StandardBackgroundIds| ==> r == [1]
    ensures |enabled| != |StandardBackgroundIds| ==> r == StandardBackgroundIds
  {
    if |enabled| == |StandardBackgroundIds| then [1] else StandardBackgroundIds
  }

  /** A duplicate-free list has as many distinct members as elements. */
  lemma {:induction false} DistinctMembers(s: seq<int>)
    requires NoDuplicates(s)
    ensures |set x | x in s| == |s|
    decreases |s|
  {
    if |s| > 0 {
      NoDuplicatesCons(s);
      DistinctMembers(s[1..]);
      assert (set x | x in s) == {s[0]} + (set x | x in s[1..]);
    }
  }

  lemma SubsetNoLarger(a: set<int>, b: set<int>)
    requires a <= b
    ensures |a| <= |b|
  {
    assert b == a + (b - a);
    assert a * (b - a) == {};
  }

  /**
   * For a duplicate-free list of catalogue ids, having length twelve is the same as having every
   * catalogue background enabled, so the switch's length test asks "are all enabled?".
   */
  lemma AllEnabledIffTwelve(enabled: seq<int>)
    requires NoDuplicates(enabled)
    requires forall n :: n in enabled ==> n in StandardBackgroundIds
    ensures |enabled| == 12 <==> forall n :: n in StandardBackgroundIds ==> n in enabled
  {
    var have := set x | x in enabled;
    var all := set x | x in StandardBackgroundIds;
    DistinctMembers(enabled);
    DistinctMembers(StandardBackgroundIds);
    assert have <= all;
    if forall n :: n in StandardBackgroundIds ==> n in enabled {
      assert have == all;
    }
    if exists n :: n in StandardBackgroundIds && n !in enabled {
      var n :| n in StandardBackgroundIds && n !in enabled;
      assert have <= all - {n};
      assert |all - {n}| == 11;
      SubsetNoLarger(have, all - {n});
    }
  }

  /** After the switch the list is ascending, duplicate-free and never empty. */
  lemma ToggleAllBackgroundsShape(enabled: seq<int>)
    ensures var r := ToggleAllBackgrounds(enabled);
            Ascending(r) && NoDuplicates(r) && |r| >= 1 && (forall n :: n in r ==> n in StandardBackgroundIds)
  {
    StandardIdsCount();
    if |enabled| == |StandardBackgroundIds| {
      assert StandardBackgroundIds[0] == 1;
    }
  }

  /** The catalogue ids are 1 to 12, each at the position before its value. */
  lemma StandardIdsCount()
    ensures |StandardBackgroundIds| == 12
    ensures forall i :: 0 <= i < 12 ==> StandardBackgroundIds[i] == i + 1
  {
  }

  // ---------------------------------------------------------------------------------------------
  // Free day

  datatype FreeDaySettings = FreeDaySettings(showFreeDayOption: bool, isFreeDay: bool)

  /** A free day is only ever on while its option is shown. */
  predicate FreeDayConsistent(s: FreeDaySettings) {
    s.isFreeDay ==> s.showFreeDayOption
  }

  /** The "Enable Free Day" checkbox sets the option and the free day together. */
  function FreeDayCheckbox(s: FreeDaySettings, checked: bool): (r: FreeDaySettings)
    ensures r.showFreeDayOption == checked && r.isFreeDay == checked
    ensures FreeDayConsistent(r)
  {
    s.(showFreeDayOption := checked).(isFreeDay := if checked then true else false)
  }

  // ---------------------------------------------------------------------------------------------
  // Hold-to-repeat steppers

  datatype Direction = Up | Down

  /** One step: `Math.min(max, v + step)` going up, `Math.max(min, v - step)` going down. */
  function Stepped(min: int, max: int, step: int, v: int, direction: Direction): int {
    if direction == Up then (if v + step < max then v + step else max)
    else (if v - step > min then v - step else min)
  }

  /** A step from a value in range stays in range, and moves by at most `step` in its direction. */
  lemma SteppedInRange(min: int, max: int, step: int, v: int, direction: Direction)
    requires min <= v <= max && step >= 0
    ensures min <= Stepped(min, max, step, v, direction) <= max
    ensures direction == Up ==> v <= Stepped(min, max, step, v, direction) <= v + step
    ensures direction == Down ==> v - step <= Stepped(min, max, step, v, direction) <= v
  {
  }

  /** A step up that is not cut off by the maximum is undone by a step down, and vice versa. */
  lemma StepUndone(min: int, max: int, step: int, v: int)
    requires min <= v && v + step <= max && step >= 0
    ensures Stepped(min, max, step, Stepped(min, max, step, v, Up), Down) == v
    ensures Stepped(min, max, step, Stepped(min, max, step, v + step, Down), Up) == v + step
  {
  }

  /** `k` steps in one direction, as the repeating timer performs them. */
  function Steps(min: int, max: int, step: int, v: int, direction: Direction, k: nat): int
    decreases k
  {
    if k == 0 then v else Steps(min, max, step, Stepped(min, max, step, v, direction), direction, k - 1)
  }

  /** Holding "up" for k steps from v reaches `min(max, v + k*step)`: the value saturates at the bound. */
  lemma {:induction false} StepsUpSaturate(min: int, max: int, step: int, v: int, k: nat)
    requires v <= max && step >= 0
    ensures Steps(min, max, step, v, Up, k) == if v + k * step < max then v + k * step else max
    decreases k
  {
    if k > 0 {
      var w := Stepped(min, max, step, v, Up);
      StepsUpSaturate(min, max, step, w, k - 1);
      assert v + k * step == v + step + (k - 1) * step;
      if w == max {
        assert max + (k - 1) * step >= max;
      }
    }
  }

  /** Holding "down" for k steps from v reaches `max(min, v - k*step)`. */
  lemma {:induction false} StepsDownSaturate(min: int, max: int, step: int, v: int, k: nat)
    requires min <= v && step >= 0
    ensures Steps(min, max, step, v, Down, k) == if v - k * step > min then v - k * step else min
    decreases k
  {
    if k > 0 {
      var w := Stepped(min, max, step, v, Down);
      StepsDownSaturate(min, max, step, w, k - 1);
      assert v - k * step == v - step - (k - 1) * step;
      if w == min {
        assert min - (k - 1) * step <= min;
      }
    }
  }

  /**
   * `useHoldIncrement(min, max, step)`: the refs the hook keeps between the press and the
   * repeating timer. Both buttons of a field share one instance.
   */
  class HoldIncrement {
    const min: int
    const max: int
    const step: int
    /** `currentValueRef` */
    var currentValue: int
    /** `directionRef`; `None` until the first press. */
    var direction: Option<Direction>

    constructor (min: int, max: int, step: int)
      ensures this.min == min && this.max == max && this.step == step
      ensures currentValue == 0 && direction == None
    {
      this.min := min;
      this.max := max;
      this.step := step;
      currentValue := 0;
      direction := None;
    }

    /** `start(currentValue, setValue, direction)`: remember the direction and step once at once. */
    method Start(value: int, dir: Direction) returns (newValue: int)
      modifies this`currentValue, this`direction
      ensures direction == Some(dir)
      ensures newValue == Stepped(min, max, step, value, dir)
      ensures currentValue == newValue
    {
      currentValue := value;
      direction := Some(dir);
      newValue := if dir == Up then Min(max, currentValue + step) else Max(min, currentValue - step);
      currentValue := newValue;
    }

    /** One tick of the repeating timer: step again from the last value, if a press has happened. */
    method Repeat() returns (next: Option<int>)
      modifies this`currentValue
      ensures old(direction).None? ==> next == None && currentValue == old(currentValue)
      ensures old(direction).Some? ==> next == Some(Stepped(min, max, step, old(currentValue), old(direction).value))
      ensures next.Some? ==> currentValue == next.value
    {
      if direction.Some? {
        var nextValue := if direction.value == Up then Min(max, currentValue + step) else Max(min, currentValue - step);
        currentValue := nextValue;
        next := Some(nextValue);
      } else {
        next := None;
      }
    }
  }

  // ---------------------------------------------------------------------------------------------
  // Order counter panel

  /** "Next order will be #...": `String(count + 1).padStart(4, '0')`. */
  function NextOrderPreview(count: int): string {
    PadStart(IntToString(count + 1), 4, '0')
  }

  /**
   * When the storage both reads and writes, the preview of the counter the panel loaded is the
   * number the next order receives.
   */
  lemma PreviewIsNextNumber(stored: Option<int>, now: nat)
    ensures NextOrderPreview(CounterValue(stored)) == IssuedNumber(stored, true, now)
  {
  }

  /**
   * When reads succeed but writes throw, the panel still previews the stored count plus one, while
   * the next order gets the clock fallback: with "41" stored the preview is "0042" and an order
   * placed at `Date.now() == 0` gets "0000".
   */
  lemma PreviewMisleadsWhenWritesFail()
    ensures NextOrderPreview(CounterValue(Some(41))) == "0042"
    ensures IssuedNumber(Some(41), false, 0) == "0000"
  {
    assert IntToString(42) == "42";
    assert IntToString(0) == "0";
  }

  /** The counter section of the dialog: the count it shows and the persisted counter. */
  class OrderCounterPanel {
    var currentOrderCount: int
    const counter: OrderCounter

    constructor (counter: OrderCounter)
      ensures this.counter == counter && currentOrderCount == 0
    {
      this.counter := counter;
      currentOrderCount := 0;
    }

    /** Opening the dialog loads the stored count; only a read that throws shows 0. */
    method Open()
      modifies this`currentOrderCount
      ensures counter.readable ==> currentOrderCount == CounterValue(counter.stored)
      ensures !counter.readable ==> currentOrderCount == 0
    {
      currentOrderCount := counter.GetCurrentOrderCounter();
    }

    /** The reset button: once confirmed, the stored counter and the shown count both become 0. */
    method Reset(confirmed: bool)
      modifies this`currentOrderCount, counter`stored
      ensures confirmed ==> currentOrderCount == 0
      ensures confirmed && counter.writable ==> counter.stored == Some(0)
      ensures confirmed && counter.writable && counter.readable ==>
                NextOrderPreview(currentOrderCount) == IssuedNumber(counter.stored, counter.readable && counter.writable, 0)
      ensures !confirmed ==> currentOrderCount == old(currentOrderCount) && counter.stored == old(counter.stored)
      ensures !counter.writable ==> counter.stored == old(counter.stored)
    {
      if confirmed {
        counter.ResetOrderCounter(0);
        currentOrderCount := 0;
      }
    }
  }
}
