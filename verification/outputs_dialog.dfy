/**
 * The per-background outputs of an order (`BackgroundOutput`): how many prints of each background and
 * whether it is emailed, and the dialog that lets the customer share the prints out over the selected
 * backgrounds.
 */
module OutputsDialog {
  import opened Wrappers
  import opened Seqs
  import opened Text
  import opened Backgrounds
  import opened JsMath

  // The outputs object

  /** One background's outputs. A field the source leaves `undefined` reads as 0 / false. */
  datatype Output = Output(prints: int, email: bool)

  datatype Entry = Entry(key: string, output: Output)

  /** No key occurs twice: the first entry's key is not among the rest, which are themselves distinct. */
  predicate UniqueKeys(o: seq<Entry>)
    decreases |o|
  {
    |o| == 0 || (Get(o[1..], o[0].key).None? && UniqueKeys(o[1..]))
  }

  /** A `BackgroundOutput` object: its entries in insertion order, each key at most once. */
  type OutputMap = o: seq<Entry> | UniqueKeys(o)

  /** `o[key]` */
  function Get(o: seq<Entry>, key: string): (r: Option<Output>)
    ensures r.Some? ==> Entry(key, r.value) in o
    decreases |o|
  {
    if |o| == 0 then None
    else if o[0].key == key then Some(o[0].output)
    else Get(o[1..], key)
  }

  /** A lookup fails exactly when no entry carries the key. */
  lemma {:induction false} GetNone(o: seq<Entry>, key: string)
    ensures Get(o, key).None? <==> forall i :: 0 <= i < |o| ==> o[i].key != key
    decreases |o|
  {
    if |o| > 0 {
      GetNone(o[1..], key);
      assert forall i :: 1 <= i < |o| ==> o[i] == o[1..][i - 1];
    }
  }

  predicate Has(o: seq<Entry>, key: string) {
    Get(o, key).Some?
  }

  /** `o[key]?.prints || 0` */
  function PrintOf(v: Option<Output>): int {
    if v.Some? then v.value.prints else 0
  }

  /** `!!o[key]?.email` */
  function EmailOf(v: Option<Output>): bool {
    v.Some? && v.value.email
  }

  /** In a duplicate-free object the entry at position i is what a lookup of its key finds. */
  lemma {:induction false} GetAt(o: OutputMap, i: int)
    requires 0 <= i < |o|
    ensures Get(o, o[i].key) == Some(o[i].output)
    decreases |o|
  {
    if i > 0 {
      GetAt(o[1..], i - 1);
    }
  }

  /** An entry put in front of an object that lacks its key. */
  function Prepend(e: Entry, rest: OutputMap): (r: OutputMap)
    requires Get(rest, e.key).None?
    ensures r == [e] + rest
    ensures Get(r, e.key) == Some(e.output)
    ensures forall k :: k != e.key ==> Get(r, k) == Get(rest, k)
  {
    var r := [e] + rest;
    assert r[1..] == rest;
    r
  }

  /**
   * `{...o, [key]: v}`: the key now holds `v` and every other lookup is unchanged. The model keeps
   * entries in insertion order, so a new key is appended; JavaScript would list an integer-like key
   * such as a catalogue id first, which no lookup, sum or membership test depends on.
   */
  function Set(o: OutputMap, key: string, v: Output): (r: OutputMap)
    ensures Get(r, key) == Some(v)
    ensures forall k :: k != key ==> Get(r, k) == Get(o, k)
    ensures Has(o, key) ==> |r| == |o|
    ensures !Has(o, key) ==> r == o + [Entry(key, v)]
  {
    if Has(o, key) then Replace(o, key, v) else Append(o, key, v)
  }

  /** Overwrites the value of a key that has an entry, in place. */
  function Replace(o: OutputMap, key: string, v: Output): (r: OutputMap)
    requires Has(o, key)
    ensures Get(r, key) == Some(v)
    ensures forall k :: k != key ==> Get(r, k) == Get(o, k)
    ensures |r| == |o|
    decreases |o|
  {
    if o[0].key == key then Prepend(Entry(key, v), o[1..])
    else
      var rest := Replace(o[1..], key, v);
      assert forall k :: k != o[0].key ==> Get(o, k) == Get(o[1..], k);
      Prepend(o[0], rest)
  }

  /** Adds an entry for a key that has none, at the end. */
  function Append(o: OutputMap, key: string, v: Output): (r: OutputMap)
    requires !Has(o, key)
    ensures r == o + [Entry(key, v)]
    ensures Get(r, key) == Some(v)
    ensures forall k :: k != key ==> Get(r, k) == Get(o, k)
    decreases |o|
  {
    if |o| == 0 then Prepend(Entry(key, v), [])
    else
      var rest := Append(o[1..], key, v);
      assert forall k :: k != o[0].key ==> Get(o, k) == Get(o[1..], k);
      assert o + [Entry(key, v)] == [o[0]] + (o[1..] + [Entry(key, v)]);
      Prepend(o[0], rest)
  }

  /** `delete o[key]`: the other entries keep their order. */
  function Delete(o: OutputMap, key: string): (r: OutputMap)
    ensures !Has(r, key)
    ensures forall k :: k != key ==> Get(r, k) == Get(o, k)
    ensures |r| <= |o|
    decreases |o|
  {
    if |o| == 0 then []
    else if o[0].key == key then o[1..]
    else
      var rest := Delete(o[1..], key);
      assert forall k :: k != o[0].key ==> Get(o, k) == Get(o[1..], k);
      Prepend(o[0], rest)
  }

  /** Setting a key to the value it already has changes nothing. */
  lemma {:induction false} SetSame(o: OutputMap, key: string)
    requires Has(o, key)
    ensures Set(o, key, Get(o, key).value) == o
    decreases |o|
  {
    if o[0].key != key {
      SetSame(o[1..], key);
    }
  }

  /** A second assignment to the same key overrides the first. */
  lemma {:induction false} SetSet(o: OutputMap, key: string, a: Output, b: Output)
    ensures Set(Set(o, key, a), key, b) == Set(o, key, b)
    decreases |o|
  {
    if |o| > 0 && o[0].key != key {
      SetSet(o[1..], key, a, b);
    }
  }

  /** `Object.values(o).reduce((total, output) => total + (output?.prints || 0), 0)` */
  function TotalPrints(o: seq<Entry>): int
    decreases |o|
  {
    if |o| == 0 then 0 else o[0].output.prints + TotalPrints(o[1..])
  }

  lemma {:induction false} TotalAfterSet(o: OutputMap, key: string, v: Output)
    ensures TotalPrints(Set(o, key, v)) == TotalPrints(o) - PrintOf(Get(o, key)) + v.prints
    decreases |o|
  {
    if |o| > 0 && o[0].key != key {
      TotalAfterSet(o[1..], key, v);
    }
  }

  lemma {:induction false} TotalAfterDelete(o: OutputMap, key: string)
    ensures TotalPrints(Delete(o, key)) == TotalPrints(o) - PrintOf(Get(o, key))
    decreases |o|
  {
    if |o| > 0 {
      if o[0].key == key {
        assert Get(o[1..], key) == None;
      } else {
        TotalAfterDelete(o[1..], key);
      }
    }
  }

  /** The print counts of the keys `keys`, added up in that order. */
  function SumPrints(o: seq<Entry>, keys: seq<string>): int
    decreases |keys|
  {
    if |keys| == 0 then 0 else PrintOf(Get(o, keys[0])) + SumPrints(o, keys[1..])
  }

  lemma {:induction false} SumPrintsSameLookups(o1: seq<Entry>, o2: seq<Entry>, keys: seq<string>)
    requires forall i :: 0 <= i < |keys| ==> Get(o1, keys[i]) == Get(o2, keys[i])
    ensures SumPrints(o1, keys) == SumPrints(o2, keys)
    decreases |keys|
  {
    if |keys| > 0 {
      SumPrintsSameLookups(o1, o2, keys[1..]);
    }
  }

  /** The total over an object is the sum over any duplicate-free list of exactly its keys. */
  lemma {:induction false} TotalByKeys(o: OutputMap, keys: seq<string>)
    requires NoDuplicates(keys)
    requires forall k :: Has(o, k) <==> k in keys
    ensures TotalPrints(o) == SumPrints(o, keys)
    decreases |keys|
  {
    if |keys| == 0 {
      if |o| > 0 {
        assert Has(o, o[0].key);
      }
    } else {
      var rest := Delete(o, keys[0]);
      NoDuplicatesCons(keys);
      forall k ensures Has(rest, k) <==> k in keys[1..] {
        if k != keys[0] {
          assert k in keys ==> k in keys[1..];
        }
      }
      TotalByKeys(rest, keys[1..]);
      TotalAfterDelete(o, keys[0]);
      SumPrintsSameLookups(o, rest, keys[1..]);
    }
  }

  // Keys of the selection

  /** `selectedBackgrounds.map(String)` */
  function SelectedKeys(sel: seq<BgId>): (r: seq<string>)
    ensures |r| == |sel| && forall i :: 0 <= i < |sel| ==> r[i] == Key(sel[i])
  {
    seq(|sel|, i requires 0 <= i < |sel| => Key(sel[i]))
  }

  lemma SelectedKeysDistinct(sel: seq<BgId>)
    requires DistinctKeys(sel)
    ensures NoDuplicates(SelectedKeys(sel))
  {
  }

  // Changing one background's quantity or email

  /** The total the dialog checks: every entry's prints, with `q` in place of the prints under `key`. */
  function TotalReplacing(o: seq<Entry>, key: string, q: int): int
    decreases |o|
  {
    if |o| == 0 then 0
    else (if o[0].key == key then q else o[0].output.prints) + TotalReplacing(o[1..], key, q)
  }

  lemma {:induction false} TotalReplacingPresent(o: OutputMap, key: string, q: int)
    ensures Has(o, key) ==> TotalReplacing(o, key, q) == TotalPrints(o) - PrintOf(Get(o, key)) + q
    ensures !Has(o, key) ==> TotalReplacing(o, key, q) == TotalPrints(o)
    decreases |o|
  {
    if |o| > 0 {
      TotalReplacingPresent(o[1..], key, q);
      if o[0].key == key {
        assert Get(o[1..], key) == None;
      }
    }
  }

  /**
   * `handlePrintQuantityChange`: the new quantity is the old one plus `delta`, floored at 0; the change
   * is refused when the total it leads to exceeds `numberOfPrints`. The email flag is kept.
   */
  function QuantityChange(prev: OutputMap, key: string, delta: int, numberOfPrints: int): (r: OutputMap)
    ensures forall k :: k != key ==> Get(r, k) == Get(prev, k)
    ensures var q := Max(0, PrintOf(Get(prev, key)) + delta);
            Has(prev, key) ==>
              if TotalPrints(prev) - PrintOf(Get(prev, key)) + q > numberOfPrints then r == prev
              else Get(r, key) == Some(Output(q, Get(prev, key).value.email))
    ensures !Has(prev, key) ==>
              if TotalPrints(prev) > numberOfPrints then r == prev
              else Get(r, key) == Some(Output(Max(0, delta), false))
  {
    var newQuantity := Max(0, PrintOf(Get(prev, key)) + delta);
    TotalReplacingPresent(prev, key, newQuantity);
    if TotalReplacing(prev, key, newQuantity) > numberOfPrints then prev
    else Set(prev, key, Output(newQuantity, EmailOf(Get(prev, key))))
  }

  /** A change of a background that has an entry never takes the total past `numberOfPrints`. */
  lemma QuantityChangeKeepsCap(prev: OutputMap, key: string, delta: int, numberOfPrints: int)
    requires Has(prev, key)
    ensures var r := QuantityChange(prev, key, delta, numberOfPrints);
            r == prev || TotalPrints(r) <= numberOfPrints
    ensures TotalPrints(prev) <= numberOfPrints ==> TotalPrints(QuantityChange(prev, key, delta, numberOfPrints)) <= numberOfPrints
  {
    var q := Max(0, PrintOf(Get(prev, key)) + delta);
    var r := QuantityChange(prev, key, delta, numberOfPrints);
    TotalReplacingPresent(prev, key, q);
    if TotalReplacing(prev, key, q) <= numberOfPrints {
      var v := Output(q, EmailOf(Get(prev, key)));
      assert r == Set(prev, key, v);
      TotalAfterSet(prev, key, v);
    }
  }

  /**
   * For a background without an entry the check counts the old entries only, so the new quantity
   * escapes the cap: one print allowed, one already given, and a first print for a second background
   * is accepted.
   */
  lemma AbsentKeyEscapesCap()
    ensures var prev: OutputMap := [Entry("1", Output(1, false))];
            var r := QuantityChange(prev, "2", 1, 1);
            TotalPrints(prev) <= 1 && TotalPrints(r) == 2
  {
    var prev: OutputMap := [Entry("1", Output(1, false))];
    TotalReplacingPresent(prev, "2", 1);
    TotalAfterSet(prev, "2", Output(1, false));
  }

  /** `handleEmailToggle`: flips the email flag under `key` and keeps its prints. */
  function ToggleEmail(prev: OutputMap, key: string): (r: OutputMap)
    ensures EmailOf(Get(r, key)) == !EmailOf(Get(prev, key))
    ensures PrintOf(Get(r, key)) == PrintOf(Get(prev, key))
    ensures forall k :: k != key ==> Get(r, k) == Get(prev, k)
  {
    Set(prev, key, Output(PrintOf(Get(prev, key)), !EmailOf(Get(prev, key))))
  }

  /** Toggling the email of a background that has an entry twice restores the object. */
  lemma ToggleEmailTwice(prev: OutputMap, key: string)
    requires Has(prev, key)
    ensures ToggleEmail(ToggleEmail(prev, key), key) == prev
  {
    var v := Get(prev, key).value;
    SetSet(prev, key, Output(v.prints, !v.email), Output(v.prints, v.email));
    SetSame(prev, key);
  }

  // Filling in every selected background

  /** The field a handler assigns on every selected background. */
  datatype Update = PrintTo(quantity: int) | EmailTo(flag: bool)

  /** `o[key] || {print: 0, email: false}` */
  function OrBlank(v: Option<Output>): Output {
    if v.Some? then v.value else Output(0, false)
  }

  function Applied(out: Output, u: Update): Output {
    match u
    case PrintTo(q) => out.(prints := q)
    case EmailTo(b) => out.(email := b)
  }

  /** `if (!o[key]) o[key] = {print: 0, email: false}; o[key].<field> = <value>;` */
  function Patch(o: OutputMap, key: string, u: Update): (r: OutputMap)
    ensures Get(r, key) == Some(Applied(OrBlank(Get(o, key)), u))
    ensures forall k :: k != key ==> Get(r, k) == Get(o, k)
  {
    Set(o, key, Applied(OrBlank(Get(o, key)), u))
  }

  /** The updates `us`, one per key of `keys`, applied in order. */
  function PatchAll(o: OutputMap, keys: seq<string>, us: seq<Update>): (r: OutputMap)
    requires |keys| == |us|
    decreases |keys|
  {
    if |keys| == 0 then o
    else Patch(PatchAll(o, keys[..|keys| - 1], us[..|us| - 1]), keys[|keys| - 1], us[|us| - 1])
  }

  /** Patching the first i + 1 keys is patching the first i and then the key at i. */
  lemma PatchAllSnoc(o: OutputMap, keys: seq<string>, us: seq<Update>, i: int)
    requires |keys| == |us| && 0 <= i < |keys|
    ensures PatchAll(o, keys[..i + 1], us[..i + 1]) == Patch(PatchAll(o, keys[..i], us[..i]), keys[i], us[i])
  {
    assert keys[..i + 1][..i] == keys[..i];
    assert us[..i + 1][..i] == us[..i];
  }

  /** Patching never touches a key outside `keys`. */
  lemma {:induction false} PatchAllOther(o: OutputMap, keys: seq<string>, us: seq<Update>, k: string)
    requires |keys| == |us| && k !in keys
    ensures Get(PatchAll(o, keys, us), k) == Get(o, k)
    decreases |keys|
  {
    if |keys| > 0 {
      var n := |keys| - 1;
      assert k !in keys[..n];
      PatchAllOther(o, keys[..n], us[..n], k);
    }
  }

  /** After patching distinct keys, the key at position i holds the update at position i. */
  lemma {:induction false} PatchAllAt(o: OutputMap, keys: seq<string>, us: seq<Update>, i: int)
    requires |keys| == |us| && NoDuplicates(keys) && 0 <= i < |keys|
    ensures Get(PatchAll(o, keys, us), keys[i]) == Some(Applied(OrBlank(Get(o, keys[i])), us[i]))
    decreases |keys|
  {
    var n := |keys| - 1;
    if i == n {
      assert keys[n] !in keys[..n];
      PatchAllOther(o, keys[..n], us[..n], keys[n]);
    } else {
      assert keys[..n][i] == keys[i] && us[..n][i] == us[i];
      PatchAllAt(o, keys[..n], us[..n], i);
    }
  }

  /** The two lookups together, for any key. */
  lemma PatchAllLookup(o: OutputMap, keys: seq<string>, us: seq<Update>, k: string)
    requires |keys| == |us| && NoDuplicates(keys)
    ensures k !in keys ==> Get(PatchAll(o, keys, us), k) == Get(o, k)
    ensures forall i :: 0 <= i < |keys| && keys[i] == k ==>
              Get(PatchAll(o, keys, us), k) == Some(Applied(OrBlank(Get(o, k)), us[i]))
  {
    if k !in keys {
      PatchAllOther(o, keys, us, k);
    }
    forall i | 0 <= i < |keys| && keys[i] == k
      ensures Get(PatchAll(o, keys, us), k) == Some(Applied(OrBlank(Get(o, k)), us[i]))
    {
      PatchAllAt(o, keys, us, i);
    }
  }

  // Sharing the prints out

  /** JavaScript's `n % c`: the remainder takes the sign of `n`. */
  function JsRemainder(n: int, c: int): (r: int)
    requires c > 0
    ensures n >= 0 ==> 0 <= r < c && n == c * (n / c) + r
    ensures n < 0 ==> -c < r <= 0
  {
    if n >= 0 then n % c else -((-n) % c)
  }

  /** What the i-th of c selected backgrounds gets: `Math.floor(n / c) + (i < n % c ? 1 : 0)`. */
  function Share(n: int, c: int, i: int): int
    requires c > 0
  {
    n / c + (if i < JsRemainder(n, c) then 1 else 0)
  }

  function Shares(n: int, c: nat): (r: seq<Update>)
    ensures |r| == c
    ensures forall i :: 0 <= i < c ==> r[i] == PrintTo(Share(n, c, i))
  {
    seq(c, i requires 0 <= i < c => PrintTo(Share(n, c, i)))
  }

  function SumShares(n: int, c: int, k: nat): int
    requires c > 0
    decreases k
  {
    if k == 0 then 0 else SumShares(n, c, k - 1) + Share(n, c, k - 1)
  }

  lemma {:induction false} SumSharesUpTo(n: int, c: int, k: nat)
    requires c > 0 && n >= 0 && k <= c
    ensures SumShares(n, c, k) == k * (n / c) + (if k < JsRemainder(n, c) then k else JsRemainder(n, c))
    decreases k
  {
    if k > 0 {
      SumSharesUpTo(n, c, k - 1);
    }
  }

  /** With a non-negative number of prints, the shares add up to exactly that number. */
  lemma SharesAddUp(n: int, c: int)
    requires c > 0 && n >= 0
    ensures SumShares(n, c, c) == n
  {
    SumSharesUpTo(n, c, c);
  }

  /** The shares never grow along the selection and differ by at most one. */
  lemma SharesBalanced(n: int, c: int, i: int, j: int)
    requires c > 0 && 0 <= i <= j < c
    ensures 0 <= Share(n, c, i) - Share(n, c, j) <= 1
  {
  }

  /** A share is zero exactly for the backgrounds past the n-th, when there are fewer prints than backgrounds. */
  lemma ShareZero(n: int, c: int, i: int)
    requires c > 0 && n >= 0 && 0 <= i < c
    ensures Share(n, c, i) == 0 <==> n <= i
    ensures Share(n, c, i) >= 0
  {
    QuotientZero(n, c);
  }

  /** Fewer prints than backgrounds leave a quotient of 0 and the whole number as the remainder. */
  lemma QuotientZero(n: int, c: int)
    requires n >= 0 && c > 0
    ensures n / c >= 0
    ensures n / c == 0 <==> n < c
    ensures n < c ==> n % c == n
  {
  }

  /** `handleDistributePrintsEvenly`, which works on a copy of the dialog's outputs. */
  method DistributePrintsEvenly(localOutputs: OutputMap, selectedBackgrounds: seq<BgId>, numberOfPrints: int)
    returns (newOutputs: OutputMap)
    ensures newOutputs == PatchAll(localOutputs, SelectedKeys(selectedBackgrounds),
                                   Shares(numberOfPrints, |selectedBackgrounds|))
  {
    newOutputs := localOutputs;
    var backgroundCount := |selectedBackgrounds|;
    if backgroundCount == 0 {
      return;
    }
    var printsPerBackground := numberOfPrints / backgroundCount;
    var remainder := JsRemainder(numberOfPrints, backgroundCount);
    ghost var keys := SelectedKeys(selectedBackgrounds);
    ghost var shares := Shares(numberOfPrints, backgroundCount);
    for index := 0 to backgroundCount
      invariant newOutputs == PatchAll(localOutputs, keys[..index], shares[..index])
    {
      var key := Key(selectedBackgrounds[index]);
      var current := OrBlank(Get(newOutputs, key));
      newOutputs := Set(newOutputs, key, current.(prints := printsPerBackground + (if index < remainder then 1 else 0)));
      PatchAllSnoc(localOutputs, keys, shares, index);
    }
    assert keys[..backgroundCount] == keys;
    assert shares[..backgroundCount] == shares;
  }

  /** The same update on every selected background. */
  function Uniform(u: Update, c: nat): (r: seq<Update>)
    ensures |r| == c && forall i :: 0 <= i < c ==> r[i] == u
  {
    seq(c, _ => u)
  }

  /** The select-all and deselect-all handlers: one field set to one value on every selected background. */
  method AssignToAll(localOutputs: OutputMap, selectedBackgrounds: seq<BgId>, u: Update)
    returns (newOutputs: OutputMap)
    ensures newOutputs == PatchAll(localOutputs, SelectedKeys(selectedBackgrounds), Uniform(u, |selectedBackgrounds|))
  {
    newOutputs := localOutputs;
    ghost var keys := SelectedKeys(selectedBackgrounds);
    ghost var us := Uniform(u, |selectedBackgrounds|);
    for index := 0 to |selectedBackgrounds|
      invariant newOutputs == PatchAll(localOutputs, keys[..index], us[..index])
    {
      var key := Key(selectedBackgrounds[index]);
      newOutputs := Set(newOutputs, key, Applied(OrBlank(Get(newOutputs, key)), u));
      PatchAllSnoc(localOutputs, keys, us, index);
    }
    assert keys[..|selectedBackgrounds|] == keys;
    assert us[..|selectedBackgrounds|] == us;
  }

  /** `handleSelectAllEmails` */
  method SelectAllEmails(localOutputs: OutputMap, selectedBackgrounds: seq<BgId>) returns (newOutputs: OutputMap)
    ensures newOutputs == PatchAll(localOutputs, SelectedKeys(selectedBackgrounds), Uniform(EmailTo(true), |selectedBackgrounds|))
  {
    newOutputs := AssignToAll(localOutputs, selectedBackgrounds, EmailTo(true));
  }

  /** `handleDeselectAllEmails` */
  method DeselectAllEmails(localOutputs: OutputMap, selectedBackgrounds: seq<BgId>) returns (newOutputs: OutputMap)
    ensures newOutputs == PatchAll(localOutputs, SelectedKeys(selectedBackgrounds), Uniform(EmailTo(false), |selectedBackgrounds|))
  {
    newOutputs := AssignToAll(localOutputs, selectedBackgrounds, EmailTo(false));
  }

  /** `handleDeselectAllPrints` */
  method DeselectAllPrints(localOutputs: OutputMap, selectedBackgrounds: seq<BgId>) returns (newOutputs: OutputMap)
    ensures newOutputs == PatchAll(localOutputs, SelectedKeys(selectedBackgrounds), Uniform(PrintTo(0), |selectedBackgrounds|))
  {
    newOutputs := AssignToAll(localOutputs, selectedBackgrounds, PrintTo(0));
  }

  /**
   * Assigning one field on every selected background (with distinct keys): each selected background
   * has an entry whose assigned field holds the value and whose other field is what it was (0 / false
   * for a new entry); every other key is untouched.
   */
  lemma AssignToAllEffect(o: OutputMap, sel: seq<BgId>, u: Update, k: string)
    requires DistinctKeys(sel)
    ensures var r := PatchAll(o, SelectedKeys(sel), Uniform(u, |sel|));
            (k in SelectedKeys(sel) ==> Get(r, k) == Some(Applied(OrBlank(Get(o, k)), u)))
            && (k !in SelectedKeys(sel) ==> Get(r, k) == Get(o, k))
  {
    PatchAllLookup(o, SelectedKeys(sel), Uniform(u, |sel|), k);
  }

  /** After distributing, the i-th selected background holds its share and keeps its email flag. */
  lemma DistributedShare(o: OutputMap, sel: seq<BgId>, n: int, i: int)
    requires DistinctKeys(sel) && 0 <= i < |sel|
    ensures var r := PatchAll(o, SelectedKeys(sel), Shares(n, |sel|));
            Get(r, Key(sel[i])) == Some(Output(Share(n, |sel|, i), EmailOf(Get(o, Key(sel[i])))))
  {
    PatchAllLookup(o, SelectedKeys(sel), Shares(n, |sel|), Key(sel[i]));
  }

  /** Distributing touches only the selected backgrounds' entries. */
  lemma DistributeKeepsOthers(o: OutputMap, sel: seq<BgId>, n: int, k: string)
    requires DistinctKeys(sel) && k !in SelectedKeys(sel)
    ensures Get(PatchAll(o, SelectedKeys(sel), Shares(n, |sel|)), k) == Get(o, k)
  {
    PatchAllLookup(o, SelectedKeys(sel), Shares(n, |sel|), k);
  }

  // Validity

  /** Every selected background has an entry with a print or the email flag. */
  predicate AllHaveOutput(sel: seq<BgId>, o: seq<Entry>) {
    forall i :: 0 <= i < |sel| ==> Has(o, Key(sel[i])) && (PrintOf(Get(o, Key(sel[i]))) > 0 || EmailOf(Get(o, Key(sel[i]))))
  }

  /** `isValid`: every selected background has some output and all prints are assigned. */
  predicate IsValid(sel: seq<BgId>, o: seq<Entry>, numberOfPrints: int) {
    AllHaveOutput(sel, o) && TotalPrints(o) == numberOfPrints
  }

  lemma {:induction false} SumPrintsOfShares(r: seq<Entry>, sel: seq<BgId>, n: int, k: nat)
    requires |sel| > 0 && k <= |sel|
    requires forall i :: 0 <= i < |sel| ==> PrintOf(Get(r, Key(sel[i]))) == Share(n, |sel|, i)
    ensures SumPrints(r, SelectedKeys(sel)[|sel| - k..]) == SumShares(n, |sel|, |sel|) - SumShares(n, |sel|, |sel| - k)
    decreases k
  {
    if k > 0 {
      var keys := SelectedKeys(sel);
      SumPrintsOfShares(r, sel, n, k - 1);
      assert keys[|sel| - k..][1..] == keys[|sel| - (k - 1)..];
    }
  }

  /** When the object's keys are exactly the selected ones, distributing n >= 0 prints assigns all n. */
  lemma DistributeTotal(o: OutputMap, sel: seq<BgId>, n: int)
    requires DistinctKeys(sel) && |sel| > 0 && n >= 0
    requires forall k :: Has(o, k) <==> k in SelectedKeys(sel)
    ensures TotalPrints(PatchAll(o, SelectedKeys(sel), Shares(n, |sel|))) == n
  {
    var keys := SelectedKeys(sel);
    var r := PatchAll(o, keys, Shares(n, |sel|));
    forall i | 0 <= i < |sel| ensures PrintOf(Get(r, Key(sel[i]))) == Share(n, |sel|, i) {
      DistributedShare(o, sel, n, i);
    }
    forall k ensures Has(r, k) <==> k in keys {
      PatchAllLookup(o, keys, Shares(n, |sel|), k);
    }
    TotalByKeys(r, keys);
    SumPrintsOfShares(r, sel, n, |sel|);
    assert keys[0..] == keys;
    SharesAddUp(n, |sel|);
  }

  /** After distributing n >= 0 prints, a selected background lacks an output exactly when it got no print and is not emailed. */
  lemma DistributeOutputs(o: OutputMap, sel: seq<BgId>, n: int)
    requires DistinctKeys(sel) && |sel| > 0 && n >= 0
    ensures AllHaveOutput(sel, PatchAll(o, SelectedKeys(sel), Shares(n, |sel|)))
            <==> forall i :: n <= i < |sel| ==> EmailOf(Get(o, Key(sel[i])))
  {
    var r := PatchAll(o, SelectedKeys(sel), Shares(n, |sel|));
    forall i | 0 <= i < |sel|
      ensures Has(r, Key(sel[i]))
      ensures PrintOf(Get(r, Key(sel[i]))) > 0 <==> i < n
      ensures EmailOf(Get(r, Key(sel[i]))) == EmailOf(Get(o, Key(sel[i])))
    {
      DistributedShare(o, sel, n, i);
      ShareZero(n, |sel|, i);
    }
  }

  /**
   * When the object's keys are exactly the selected ones (as the session keeps them), the result of
   * distributing n >= 0 prints is valid exactly when every background past the n-th is emailed; with
   * at least as many prints as backgrounds it is always valid.
   */
  lemma DistributeValidity(o: OutputMap, sel: seq<BgId>, n: int)
    requires DistinctKeys(sel) && |sel| > 0 && n >= 0
    requires forall k :: Has(o, k) <==> k in SelectedKeys(sel)
    ensures IsValid(sel, PatchAll(o, SelectedKeys(sel), Shares(n, |sel|)), n)
            <==> forall i :: n <= i < |sel| ==> EmailOf(Get(o, Key(sel[i])))
    ensures n >= |sel| ==> IsValid(sel, PatchAll(o, SelectedKeys(sel), Shares(n, |sel|)), n)
  {
    DistributeTotal(o, sel, n);
    DistributeOutputs(o, sel, n);
  }

  // Names

  /** `getBackgroundName`: the name the screen reported, else a name built from the id. */
  function DialogBackgroundName(id: BgId, names: map<string, string>): (r: string)
    ensures Key(id) in names && names[Key(id)] != "" ==> r == names[Key(id)]
    ensures !(Key(id) in names && names[Key(id)] != "") ==>
              (id.Num? ==> r == "Background " + IntToString(id.n))
              && (IsExtra(id) ==> r == "Extra Background " + id.s[|ExtraPrefix|..])
              && (IsUploaded(id) ==> r == "Custom Upload " + id.s[|UploadedPrefix|..])
              && (id.Str? && !IsExtra(id) && !IsUploaded(id) ==> r == "Background " + id.s)
  {
    var key := Key(id);
    if key in names && names[key] != "" then names[key]
    else match id
      case Num(n) => "Background " + IntToString(n)
      case Str(s) =>
        ExtraPrefixExcludesUploaded(s);
        if StartsWith(s, ExtraPrefix) then "Extra Background " + s[|ExtraPrefix|..]
        else if StartsWith(s, UploadedPrefix) then "Custom Upload " + s[|UploadedPrefix|..]
        else "Background " + s
  }
}
