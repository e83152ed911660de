/**
 * A text field driven by the on-screen keyboard: each virtual key appends to the value, backspace
 * drops the last character, and closing or pressing the physical Enter key notifies the field's owner
 * through whichever of its optional callbacks it supplied.
 */
module KeyboardInput {
  /** A call the field makes to its owner. */
  datatype Callback = OnChange(value: string) | OnEnter | OnCloseKeyboard | OnBlur

  /** Which of the optional callbacks the owner supplied. */
  datatype Handlers = Handlers(hasOnEnter: bool, hasOnCloseKeyboard: bool, hasOnBlur: bool)

  /** A virtual key press reports the value with the key appended. */
  function KeyPress(value: string, key: string): (r: Callback)
    ensures r.OnChange? && |r.value| == |value| + |key|
    ensures value <= r.value && r.value[|value|..] == key
  {
    OnChange(value + key)
  }

  /** Backspace reports the value without its last character; on an empty value it stays empty. */
  function Backspace(value: string): (r: Callback)
    ensures r.OnChange?
    ensures |value| == 0 ==> r.value == ""
    ensures |value| > 0 ==> r.value + [value[|value| - 1]] == value
  {
    OnChange(if |value| == 0 then "" else value[..|value| - 1])
  }

  /** The value after `n` presses of backspace. */
  function BackspaceTimes(value: string, n: nat): (r: string)
    decreases n
  {
    if n == 0 then value else BackspaceTimes(Backspace(value).value, n - 1)
  }

  /** Backspace pressed as often as a key was long takes the value back to what it was. */
  lemma {:induction false} BackspaceUndoesKey(value: string, key: string)
    ensures BackspaceTimes(KeyPress(value, key).value, |key|) == value
    decreases |key|
  {
    if |key| > 0 {
      var shorter := key[..|key| - 1];
      assert Backspace(value + key).value == value + shorter;
      BackspaceUndoesKey(value, shorter);
      BackspaceTimesShift(value + key, |key| - 1);
    }
  }

  /** The first press may be peeled off the front of a run of backspaces. */
  lemma {:induction false} BackspaceTimesShift(value: string, n: nat)
    ensures BackspaceTimes(value, n + 1) == BackspaceTimes(Backspace(value).value, n)
  {
  }

  /**
   * Closing the keyboard calls `onCloseKeyboard` when supplied, then `onBlur` when supplied and the
   * input element is mounted.
   */
  function Close(h: Handlers, mounted: bool): (r: seq<Callback>)
    ensures OnCloseKeyboard in r <==> h.hasOnCloseKeyboard
    ensures OnBlur in r <==> h.hasOnBlur && mounted
    ensures OnBlur in r && OnCloseKeyboard in r ==> r == [OnCloseKeyboard, OnBlur]
    ensures forall c :: c in r ==> c == OnCloseKeyboard || c == OnBlur
  {
    (if h.hasOnCloseKeyboard then [OnCloseKeyboard] else [])
      + (if h.hasOnBlur && mounted then [OnBlur] else [])
  }

  /** The physical Enter key calls `onEnter`, then `onCloseKeyboard`, each when supplied; other keys call nothing. */
  function KeyDown(h: Handlers, key: string): (r: seq<Callback>)
    ensures key != "Enter" ==> r == []
    ensures OnEnter in r <==> key == "Enter" && h.hasOnEnter
    ensures OnCloseKeyboard in r <==> key == "Enter" && h.hasOnCloseKeyboard
    ensures OnBlur !in r
  {
    if key == "Enter" then
      (if h.hasOnEnter then [OnEnter] else []) + (if h.hasOnCloseKeyboard then [OnCloseKeyboard] else [])
    else []
  }

  /**
   * The on-screen Enter button, when the field passes `onEnter` on to the keyboard: it calls `onEnter`
   * when supplied and otherwise closes the keyboard the way `Close` does.
   */
  function VirtualEnter(h: Handlers, mounted: bool): (r: seq<Callback>)
    ensures h.hasOnEnter ==> r == [OnEnter]
    ensures !h.hasOnEnter ==> r == Close(h, mounted)
  {
    if h.hasOnEnter then [OnEnter] else Close(h, mounted)
  }

  /**
   * The two Enter keys differ: with both callbacks supplied the on-screen one submits without closing
   * the keyboard, the physical one submits and closes it.
   */
  lemma EnterKeysDiffer(h: Handlers, mounted: bool)
    requires h.hasOnEnter && h.hasOnCloseKeyboard
    ensures OnCloseKeyboard !in VirtualEnter(h, mounted)
    ensures KeyDown(h, "Enter") == [OnEnter, OnCloseKeyboard]
  {
  }
}
