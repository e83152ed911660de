/**
 * The on-screen keyboard: a shift key that applies to one key press, a caps lock that stays on, and
 * buttons that type special strings, a space, or signal "enter" and "close" to the field using it.
 */
module Keyboard {
  import opened Text

  /** The keyboard's two pieces of state. */
  datatype Modifiers = Modifiers(isShift: bool, capsLock: bool)

  /** `isShift || capsLock`: letters are shown, and typed, in upper case. */
  predicate IsUppercase(m: Modifiers) {
    m.isShift || m.capsLock
  }

  /** What a letter or digit key types: `key.toUpperCase()` in upper case, the key itself otherwise. */
  function TypedKey(m: Modifiers, key: string): (r: string)
    ensures |r| == |key|
    ensures IsUppercase(m) ==> r == Upper(key)
    ensures !IsUppercase(m) ==> r == key
  {
    if m.isShift || m.capsLock then Upper(key) else key
  }

  /** The modifiers after a letter or digit key: a shift without caps lock is used up. */
  function AfterKey(m: Modifiers): (r: Modifiers)
    ensures r.capsLock == m.capsLock
    ensures r.isShift <==> m.isShift && m.capsLock
  {
    if m.isShift && !m.capsLock then m.(isShift := false) else m
  }

  /** `handleShift` */
  function AfterShift(m: Modifiers): (r: Modifiers)
    ensures r.isShift == !m.isShift && r.capsLock == m.capsLock
  {
    m.(isShift := !m.isShift)
  }

  /** `handleCapsLock` */
  function AfterCapsLock(m: Modifiers): (r: Modifiers)
    ensures r.capsLock == !m.capsLock && !r.isShift
  {
    Modifiers(false, !m.capsLock)
  }

  /** Digits and the other non-letters are the same in both cases. */
  lemma DigitsIgnoreCase(key: string)
    requires forall i :: 0 <= i < |key| ==> '0' <= key[i] <= '9'
    ensures forall m :: TypedKey(m, key) == key
  {
    assert Upper(key) == key;
  }

  /** Caps lock pressed twice restores it and leaves shift off. */
  lemma CapsLockTwice(m: Modifiers)
    ensures AfterCapsLock(AfterCapsLock(m)) == Modifiers(false, m.capsLock)
  {
  }

  /** The keys typed in order. */
  function Concat(keys: seq<string>): (r: string)
    decreases |keys|
  {
    if |keys| == 0 then "" else keys[0] + Concat(keys[1..])
  }

  /** A run of letter and digit presses: the text typed and the modifiers afterwards. */
  function TypeKeys(m: Modifiers, keys: seq<string>): (r: (string, Modifiers))
    decreases |keys|
  {
    if |keys| == 0 then ("", m)
    else
      var rest := TypeKeys(AfterKey(m), keys[1..]);
      (TypedKey(m, keys[0]) + rest.0, rest.1)
  }

  lemma UpperConcat(a: string, b: string)
    ensures Upper(a + b) == Upper(a) + Upper(b)
  {
  }

  /** With caps lock on, everything typed is upper case and the modifiers stay as they are. */
  lemma {:induction false} CapsLockTypesUpper(m: Modifiers, keys: seq<string>)
    requires m.capsLock
    ensures TypeKeys(m, keys) == (Upper(Concat(keys)), m)
    decreases |keys|
  {
    if |keys| > 0 {
      CapsLockTypesUpper(m, keys[1..]);
      UpperConcat(keys[0], Concat(keys[1..]));
    }
  }

  /** With neither shift nor caps lock, keys are typed as they are. */
  lemma {:induction false} PlainTyping(m: Modifiers, keys: seq<string>)
    requires !m.isShift && !m.capsLock
    ensures TypeKeys(m, keys) == (Concat(keys), m)
    decreases |keys|
  {
    if |keys| > 0 {
      PlainTyping(m, keys[1..]);
    }
  }

  /** Shift without caps lock raises only the next key; the keys after it are typed as they are. */
  lemma ShiftIsOneShot(m: Modifiers, keys: seq<string>)
    requires m.isShift && !m.capsLock && |keys| > 0
    ensures TypeKeys(m, keys) == (Upper(keys[0]) + Concat(keys[1..]), Modifiers(false, false))
  {
    PlainTyping(AfterKey(m), keys[1..]);
  }

  /** The keys of the special row, typed verbatim whatever the modifiers. */
  const SpecialKeys: seq<string> := ["@", ".", "-", "_", ".com"]

  /** What the Enter button calls. */
  datatype EnterCall = CallOnEnter | CallOnClose

  /** The Enter button calls `onEnter` when the field supplies one, and closes the keyboard otherwise. */
  function EnterButton(hasOnEnter: bool): (r: EnterCall)
    ensures r == CallOnEnter <==> hasOnEnter
  {
    if hasOnEnter then CallOnEnter else CallOnClose
  }

  /** The keyboard's state between presses. */
  class VirtualKeyboard {
    var isShift: bool
    var capsLock: bool

    constructor ()
      ensures !isShift && !capsLock
    {
      isShift := false;
      capsLock := false;
    }

    function State(): Modifiers
      reads this
    {
      Modifiers(isShift, capsLock)
    }

    /** `handleKeyPress(key)` for a letter or digit: type it, then use up a one-shot shift. */
    method HandleKeyPress(key: string) returns (typed: string)
      modifies this
      ensures typed == TypedKey(old(State()), key)
      ensures State() == AfterKey(old(State()))
    {
      var shouldCapitalize := isShift || capsLock;
      typed := if shouldCapitalize then Upper(key) else key;
      if isShift && !capsLock {
        isShift := false;
      }
    }

    /** `handleShift` */
    method HandleShift()
      modifies this`isShift
      ensures State() == AfterShift(old(State()))
    {
      isShift := !isShift;
    }

    /** `handleCapsLock` */
    method HandleCapsLock()
      modifies this
      ensures State() == AfterCapsLock(old(State()))
    {
      capsLock := !capsLock;
      isShift := false;
    }

    /** A special key or the space bar: the key goes out as it is and no state changes. */
    method PressVerbatim(key: string) returns (typed: string)
      ensures typed == key
    {
      typed := key;
    }
  }
}
