/**
 * Sequential order numbers kept in persistent browser storage under the key "orderCounter".
 * The storage is a field of the counter object: `stored` is the integer whose decimal text is
 * stored (`None` when the key is absent). Reading (`getItem`) and writing (`setItem`) can throw
 * independently, for instance when the storage quota is exhausted but reads still succeed; the
 * operations catch either and fall back as the source does.
 */
module OrderNumbers {
  import opened Wrappers
  import opened Text

  /** `num.toString().padStart(4, '0')` */
  function FormatOrderNumber(n: int): string {
    PadStart(IntToString(n), 4, '0')
  }

  /**
   * An order number is the counter's decimal text behind as many zeros as make it four characters;
   * it is never truncated, and for a non-negative counter it is all digits and reads back as the counter.
   */
  lemma FormatOrderNumberMeaning(n: int)
    ensures var r := FormatOrderNumber(n);
            && |r| == (if |IntToString(n)| >= 4 then |IntToString(n)| else 4)
            && r[|r| - |IntToString(n)|..] == IntToString(n)
            && (forall i :: 0 <= i < |r| - |IntToString(n)| ==> r[i] == '0')
            && (n >= 0 ==> AllDigits(r) && DecimalValue(r) == n)
  {
    var s := IntToString(n);
    var r := FormatOrderNumber(n);
    PadStartShape(s, 4, '0');
    if n >= 0 {
      LeadingZerosValue(r[..|r| - |s|], s);
      DecimalRoundTrip(n);
    }
  }

  /** Distinct counter values give distinct order numbers. */
  lemma FormatInjective(m: nat, n: nat)
    requires FormatOrderNumber(m) == FormatOrderNumber(n)
    ensures m == n
  {
    FormatOrderNumberMeaning(m);
    FormatOrderNumberMeaning(n);
  }

  /** Dropping the zero padding of a positive order number leaves the decimal text of the counter. */
  lemma FormatStripsToDecimal(n: nat)
    requires n >= 1
    ensures StripLeadingZeros(FormatOrderNumber(n)) == NatToString(n)
  {
    var s := NatToString(n);
    var r := FormatOrderNumber(n);
    FormatOrderNumberMeaning(n);
    assert r == r[..|r| - |s|] + s;
    StripZerosBefore(r[..|r| - |s|], s);
  }

  lemma {:induction false} StripZerosBefore(z: string, s: string)
    requires forall i :: 0 <= i < |z| ==> z[i] == '0'
    requires |s| > 0 && s[0] != '0'
    ensures StripLeadingZeros(z + s) == s
    decreases |z|
  {
    if |z| > 0 {
      assert (z + s)[1..] == z[1..] + s;
      StripZerosBefore(z[1..], s);
    }
  }

  /** The fallback number `Date.now() % 10000` always formats to exactly four digits. */
  lemma FallbackHasFourDigits(now: nat)
    ensures |FormatOrderNumber(now % 10000)| == 4
    ensures AllDigits(FormatOrderNumber(now % 10000))
  {
    assert Pow10(4) == 10000;
    NatToStringLength(now % 10000, 4);
    FormatOrderNumberMeaning(now % 10000);
  }

  /** `currentCounterStr ? parseInt(currentCounterStr, 10) : 0` */
  function CounterValue(stored: Option<int>): int {
    stored.UnwrapOr(0)
  }

  /**
   * The number `getNextOrderNumber` hands out: the incremented counter when the storage both reads
   * and writes (`works`), the clock fallback when either access throws.
   */
  function IssuedNumber(stored: Option<int>, works: bool, now: nat): string {
    if works then FormatOrderNumber(CounterValue(stored) + 1) else FormatOrderNumber(now % 10000)
  }

  /** The fallback repeats every 10000 milliseconds, so two failing calls can hand out the same number. */
  lemma FallbackRepeats(stored: Option<int>, now: nat)
    ensures IssuedNumber(stored, false, now) == IssuedNumber(stored, false, now + 10000)
  {
    assert (now + 10000) % 10000 == now % 10000;
  }

  /**
   * The fallback can also repeat a number the working counter hands out: a failing call at
   * `Date.now() == 10001` gives "0001", the first number of a fresh counter.
   */
  lemma FallbackMeetsCounter()
    ensures IssuedNumber(None, false, 10001) == IssuedNumber(None, true, 0) == "0001"
  {
    assert 10001 % 10000 == 1;
    FormatOrderNumberMeaning(1);
    assert IntToString(1) == "1";
  }

  /** `format` applied to `k` successive counter values, the first being `next`. */
  function Successive(format: int -> string, next: int, k: nat): seq<string>
    decreases k
  {
    if k == 0 then [] else [format(next)] + Successive(format, next + 1, k - 1)
  }

  /** The numbers handed out by `k` successive calls with a working storage, the first being `next`. */
  function IssueFrom(next: int, k: nat): seq<string> {
    Successive(FormatOrderNumber, next, k)
  }

  /** The i-th of k successive values (counting from 0) is the format of next+i. */
  lemma {:induction false} SuccessiveAt(format: int -> string, next: int, k: nat, i: nat)
    requires i < k
    ensures |Successive(format, next, k)| == k
    ensures Successive(format, next, k)[i] == format(next + i)
    decreases k
  {
    if i > 0 {
      SuccessiveAt(format, next + 1, k - 1, i - 1);
      assert next + 1 + (i - 1) == next + i;
    } else if k > 1 {
      SuccessiveAt(format, next + 1, k - 1, 0);
    }
  }

  /** The i-th of k successive calls (counting from 0) hands out the number next+i. */
  lemma IssueFromConsecutive(next: int, k: nat, i: nat)
    requires i < k
    ensures |IssueFrom(next, k)| == k
    ensures IssueFrom(next, k)[i] == FormatOrderNumber(next + i)
  {
    SuccessiveAt(FormatOrderNumber, next, k, i);
  }

  /**
   * From a stored counter c >= 0, k successive calls hand out numbers that read as c+1, ..., c+k:
   * strictly increasing, one apart.
   */
  lemma IssuedNumbersIncrease(stored: Option<int>, k: nat, i: nat)
    requires CounterValue(stored) >= 0 && i < k
    ensures var issued := IssueFrom(CounterValue(stored) + 1, k);
            |issued| == k && AllDigits(issued[i]) && DecimalValue(issued[i]) == CounterValue(stored) + 1 + i
  {
    IssueFromConsecutive(CounterValue(stored) + 1, k, i);
    FormatOrderNumberMeaning(CounterValue(stored) + 1 + i);
  }

  class OrderCounter {
    /** The persisted counter: `None` when nothing is stored. */
    var stored: Option<int>
    /** False when `getItem` on the storage throws. */
    var readable: bool
    /** False when `setItem` on the storage throws. */
    var writable: bool

    constructor(stored: Option<int>, readable: bool, writable: bool)
      ensures this.stored == stored && this.readable == readable && this.writable == writable
    {
      this.stored := stored;
      this.readable := readable;
      this.writable := writable;
    }

    /**
     * Increments the stored counter and returns it formatted. A read that throws, or a write that
     * throws after a successful read, lands in the same catch: the clock fallback, nothing stored.
     */
    method GetNextOrderNumber(now: nat) returns (orderNumber: string)
      modifies this`stored
      ensures orderNumber == IssuedNumber(old(stored), readable && writable, now)
      ensures readable && writable ==> stored == Some(CounterValue(old(stored)) + 1)
      ensures !(readable && writable) ==> stored == old(stored)
    {
      if !readable {
        orderNumber := FormatOrderNumber(now % 10000);
        return;
      }
      var currentCounter := CounterValue(stored);
      var nextCounter := currentCounter + 1;
      if !writable {
        orderNumber := FormatOrderNumber(now % 10000);
        return;
      }
      stored := Some(nextCounter);
      orderNumber := FormatOrderNumber(nextCounter);
    }

    /** The stored counter (0 when absent or when the read throws); only reads the storage. */
    method GetCurrentOrderCounter() returns (count: int)
      ensures readable ==> count == CounterValue(stored)
      ensures !readable ==> count == 0
    {
      if !readable {
        return 0;
      }
      count := CounterValue(stored);
    }

    /** Stores `startValue` (the admin screen passes 0); a write that throws is only logged. */
    method ResetOrderCounter(startValue: int)
      modifies this`stored
      ensures writable ==> stored == Some(startValue)
      ensures !writable ==> stored == old(stored)
      ensures writable ==> IssuedNumber(stored, true, 0) == FormatOrderNumber(startValue + 1)
    {
      if writable {
        stored := Some(startValue);
      }
    }

    /** Stores `value`, clamped at 0; a write that throws is only logged. */
    method SetOrderCounter(value: int)
      modifies this`stored
      ensures writable ==> stored == Some(if value < 0 then 0 else value)
      ensures !writable ==> stored == old(stored)
    {
      if writable {
        var v := value;
        if v < 0 {
          v := 0;
        }
        stored := Some(v);
      }
    }
  }
}
