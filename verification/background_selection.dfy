/**
 * The background-selection screen: which catalogue backgrounds are offered, how tapping a
 * background toggles it in the selection, how themed extras and uploaded photos join the
 * selection, and when "Next" is enabled.
 *
 * The selection is an ordered list of ids. It stays duplicate-free, holds at most one uploaded
 * photo, and only grows while it is shorter than `maxDigitalBackgrounds`.
 */
module BackgroundSelection {
  import opened Seqs
  import opened Text
  import opened Backgrounds

  /** `bgId => typeof bgId === 'number' || !String(bgId).startsWith('uploaded-custom-')` */
  predicate NotUploaded(id: BgId) {
    !IsUploaded(id)
  }

  /** The uploaded ids in a selection. */
  function Uploads(sel: seq<BgId>): (r: seq<BgId>)
    ensures forall i :: 0 <= i < |r| ==> IsUploaded(r[i])
  {
    Filter(sel, IsUploaded)
  }

  /** The selection with every uploaded id dropped, in order. */
  function WithoutUploads(sel: seq<BgId>): (r: seq<BgId>)
    ensures forall i :: 0 <= i < |r| ==> !IsUploaded(r[i])
  {
    Filter(sel, NotUploaded)
  }

  /** The invariant of the selection: no repeats, at most one uploaded photo, within the limit. */
  predicate WellFormed(sel: seq<BgId>, maxDigital: int) {
    NoDuplicates(sel) && |Uploads(sel)| <= 1 && |sel| <= maxDigital
  }

  /** `toggleBackground(id)`: the selection after tapping `id`. */
  function Toggle(sel: seq<BgId>, id: BgId, maxDigital: int): (r: seq<BgId>)
    ensures id in r <==> id !in sel && |sel| < maxDigital
    ensures forall x :: x in r && x != id ==> x in sel
    ensures |r| <= |sel| + 1
    ensures |r| > |sel| ==> |sel| < maxDigital
  {
    if id in sel then
      RemoveElements(sel, id);
      Remove(sel, id)
    else if |sel| >= maxDigital then
      sel
    else if IsUploaded(id) then
      WithoutUploads(sel) + [id]
    else
      sel + [id]
  }

  /** Tapping a selected id removes exactly that id and closes the gap, keeping the order. */
  lemma ToggleOff(sel: seq<BgId>, i: int, maxDigital: int)
    requires NoDuplicates(sel) && 0 <= i < |sel|
    ensures Toggle(sel, sel[i], maxDigital) == sel[..i] + sel[i + 1..]
  {
    RemoveAt(sel, i);
  }

  /** Tapping an unselected id on a full selection changes nothing. */
  lemma ToggleWhenFull(sel: seq<BgId>, id: BgId, maxDigital: int)
    requires id !in sel && |sel| >= maxDigital
    ensures Toggle(sel, id, maxDigital) == sel
  {
  }

  /** Tapping an unselected catalogue or themed id appends it at the end. */
  lemma ToggleOnAppends(sel: seq<BgId>, id: BgId, maxDigital: int)
    requires id !in sel && |sel| < maxDigital && !IsUploaded(id)
    ensures Toggle(sel, id, maxDigital) == sel + [id]
  {
  }

  /**
   * Tapping an unselected upload evicts every other upload, keeps the remaining ids in order
   * and appends the new one.
   */
  lemma ToggleOnUpload(sel: seq<BgId>, id: BgId, maxDigital: int)
    requires id !in sel && |sel| < maxDigital && IsUploaded(id)
    ensures Toggle(sel, id, maxDigital) == WithoutUploads(sel) + [id]
    ensures forall x :: x in Toggle(sel, id, maxDigital) <==> x == id || (x in sel && !IsUploaded(x))
    ensures Uploads(Toggle(sel, id, maxDigital)) == [id]
  {
    forall x {
      FilterMembership(sel, NotUploaded, x);
    }
    FilterConcat(WithoutUploads(sel), [id], IsUploaded);
    FilterNone(WithoutUploads(sel), IsUploaded);
  }

  /** Tapping an id that was just added by a tap removes it again. */
  lemma {:induction false} ToggleTwice(sel: seq<BgId>, id: BgId, maxDigital: int)
    requires id !in sel && |sel| < maxDigital && !IsUploaded(id)
    ensures Toggle(Toggle(sel, id, maxDigital), id, maxDigital) == sel
  {
    RemoveConcat(sel, [id], id);
    RemoveAbsent(sel, id);
    assert Remove([id], id) == [];
  }

  /** Removing an id cannot add uploads. */
  lemma {:induction false} UploadsOfRemove(sel: seq<BgId>, x: BgId)
    ensures |Uploads(Remove(sel, x))| <= |Uploads(sel)|
    decreases |sel|
  {
    if |sel| > 0 {
      UploadsOfRemove(sel[1..], x);
      assert sel == [sel[0]] + sel[1..];
      FilterConcat([sel[0]], sel[1..], IsUploaded);
      var rest := Remove(sel[1..], x);
      FilterConcat(if sel[0] == x then [] else [sel[0]], rest, IsUploaded);
    }
  }

  /** Appending a catalogue or themed id adds no upload. */
  lemma UploadsOfAppend(sel: seq<BgId>, id: BgId)
    requires !IsUploaded(id)
    ensures Uploads(sel + [id]) == Uploads(sel)
  {
    FilterConcat(sel, [id], IsUploaded);
  }

  /** Dropping the uploads and appending a fresh id keeps the list duplicate-free. */
  lemma AppendAfterDrop(sel: seq<BgId>, id: BgId)
    requires NoDuplicates(sel) && IsUploaded(id)
    ensures NoDuplicates(WithoutUploads(sel) + [id])
    ensures Uploads(WithoutUploads(sel) + [id]) == [id]
  {
    FilterNoDuplicates(sel, NotUploaded);
    AppendNoDuplicates(WithoutUploads(sel), id);
    FilterConcat(WithoutUploads(sel), [id], IsUploaded);
    FilterNone(WithoutUploads(sel), IsUploaded);
  }

  /** Tapping keeps the selection well formed. */
  lemma ToggleKeepsWellFormed(sel: seq<BgId>, id: BgId, maxDigital: int)
    requires WellFormed(sel, maxDigital)
    ensures WellFormed(Toggle(sel, id, maxDigital), maxDigital)
  {
    if id in sel {
      RemoveNoDuplicates(sel, id);
      UploadsOfRemove(sel, id);
    } else if |sel| < maxDigital {
      if IsUploaded(id) {
        AppendAfterDrop(sel, id);
      } else {
        AppendNoDuplicates(sel, id);
        UploadsOfAppend(sel, id);
      }
    }
  }

  /** `selectedBackgrounds.length === 0` disables the "Next" button. */
  predicate CanGoNext(sel: seq<BgId>) {
    |sel| != 0
  }

  /**
   * On a duplicate-free selection, a tap leaves "Next" disabled exactly when it deselects the
   * only selected id, or when nothing was selected and nothing may be.
   */
  lemma NextAfterToggle(sel: seq<BgId>, id: BgId, maxDigital: int)
    requires NoDuplicates(sel)
    ensures !CanGoNext(Toggle(sel, id, maxDigital)) <==> sel == [id] || (sel == [] && maxDigital <= 0)
  {
    var r := Toggle(sel, id, maxDigital);
    if id in sel && sel != [id] {
      var j :| 0 <= j < |sel| && sel[j] != id;
      RemoveMembership(sel, id, sel[j]);
      assert sel[j] in r;
    }
    if sel == [id] {
      assert Remove(sel, id) == Remove(sel[1..], id) == [];
    }
  }

  /** `backgrounds.filter(bg => enabledBackgrounds.includes(bg.id))`: the catalogue entries on offer. */
  function AvailableBackgrounds(enabled: seq<int>): (r: seq<CatalogueEntry>)
    ensures |r| <= |Catalogue|
  {
    Filter(Catalogue, (e: CatalogueEntry) => e.id in enabled)
  }

  /** A catalogue entry is offered exactly when its id is enabled. */
  lemma AvailableBackgroundsMembers(enabled: seq<int>, e: CatalogueEntry)
    ensures e in AvailableBackgrounds(enabled) <==> e in Catalogue && e.id in enabled
  {
    FilterMembership(Catalogue, (e: CatalogueEntry) => e.id in enabled, e);
  }

  /** A background the screen knows of: its id, its display name and its image. */
  datatype Background = Background(id: BgId, name: string, url: string)

  /** `extraBackgrounds.find(cb => cb.id === id)` found something. */
  predicate HasId(list: seq<Background>, id: BgId) {
    exists i :: 0 <= i < |list| && list[i].id == id
  }

  /** `` `uploaded-custom-${k}` `` */
  function UploadId(k: int): (r: BgId)
    ensures IsUploaded(r)
  {
    assert UploadedPrefix <= UploadedPrefix + IntToString(k);
    Str(UploadedPrefix + IntToString(k))
  }

  /** Uploads numbered by distinct positive counters have distinct ids. */
  lemma UploadIdInjective(j: int, k: int)
    requires 0 < j && 0 < k && UploadId(j) == UploadId(k)
    ensures j == k
  {
    var a := UploadedPrefix + IntToString(j);
    var b := UploadedPrefix + IntToString(k);
    assert a[|UploadedPrefix|..] == IntToString(j);
    assert b[|UploadedPrefix|..] == IntToString(k);
    NatToStringInjective(j, k);
  }

  /** The selection after an upload with id `newId`: drop old uploads, select `newId` if there is room. */
  function AfterUpload(sel: seq<BgId>, newId: BgId, maxDigital: int): (r: seq<BgId>)
    ensures forall x :: x in r && x != newId ==> x in sel && !IsUploaded(x)
  {
    forall x ensures x in WithoutUploads(sel) ==> x in sel {
      FilterMembership(sel, NotUploaded, x);
    }
    var rest := WithoutUploads(sel);
    if |rest| < maxDigital then rest + [newId] else rest
  }

  /**
   * An upload drops every previously selected upload, keeps the other ids in order, and
   * selects the new one exactly when fewer than `maxDigital` ids remain; the selection stays
   * well formed.
   */
  lemma AfterUploadShape(sel: seq<BgId>, newId: BgId, maxDigital: int)
    requires WellFormed(sel, maxDigital) && IsUploaded(newId)
    ensures WellFormed(AfterUpload(sel, newId, maxDigital), maxDigital)
    ensures newId in AfterUpload(sel, newId, maxDigital) <==> |WithoutUploads(sel)| < maxDigital
    ensures forall x :: !IsUploaded(x) ==> (x in AfterUpload(sel, newId, maxDigital) <==> x in sel)
  {
    var rest := WithoutUploads(sel);
    FilterNoDuplicates(sel, NotUploaded);
    FilterNone(rest, IsUploaded);
    forall x {
      FilterMembership(sel, NotUploaded, x);
    }
    if |rest| < maxDigital {
      AppendAfterDrop(sel, newId);
    }
  }

  /**
   * The screen's own state: the themed extras and uploaded photos it has offered, the upload
   * counter, and (handed in by the app) the selection and its limit.
   */
  class BackgroundScreen {
    var selectedBackgrounds: seq<BgId>
    var maxDigitalBackgrounds: int
    var extraBackgrounds: seq<Background>
    var uploadedBackgrounds: seq<Background>
    var uploadCounter: int

    /** Every upload so far is numbered by its position, counting from 1. */
    ghost predicate Valid()
      reads this
    {
      uploadCounter == |uploadedBackgrounds| &&
      forall i :: 0 <= i < |uploadedBackgrounds| ==> uploadedBackgrounds[i].id == UploadId(i + 1)
    }

    constructor (selected: seq<BgId>, maxDigital: int)
      ensures Valid()
      ensures selectedBackgrounds == selected && maxDigitalBackgrounds == maxDigital
      ensures extraBackgrounds == [] && uploadedBackgrounds == [] && uploadCounter == 0
    {
      selectedBackgrounds := selected;
      maxDigitalBackgrounds := maxDigital;
      extraBackgrounds := [];
      uploadedBackgrounds := [];
      uploadCounter := 0;
    }

    /** `toggleBackground(id)` */
    method ToggleBackground(id: BgId)
      modifies this`selectedBackgrounds
      ensures selectedBackgrounds == Toggle(old(selectedBackgrounds), id, maxDigitalBackgrounds)
    {
      selectedBackgrounds := Toggle(selectedBackgrounds, id, maxDigitalBackgrounds);
    }

    /** `handleSelectExtraBackground(bg)`: offer the extra once, then toggle it. */
    method SelectExtraBackground(bg: Background)
      modifies this`extraBackgrounds, this`selectedBackgrounds
      ensures HasId(old(extraBackgrounds), bg.id) ==> extraBackgrounds == old(extraBackgrounds)
      ensures !HasId(old(extraBackgrounds), bg.id) ==> extraBackgrounds == old(extraBackgrounds) + [bg]
      ensures HasId(extraBackgrounds, bg.id)
      ensures selectedBackgrounds == Toggle(old(selectedBackgrounds), bg.id, maxDigitalBackgrounds)
    {
      if !HasId(extraBackgrounds, bg.id) {
        extraBackgrounds := extraBackgrounds + [bg];
        assert extraBackgrounds[|extraBackgrounds| - 1].id == bg.id;
      }
      ToggleBackground(bg.id);
    }

    /** `handleUploadComplete(imageData)`: number the upload, offer it and select it if there is room. */
    method UploadComplete(imageData: string)
      requires Valid()
      modifies this`uploadCounter, this`uploadedBackgrounds, this`selectedBackgrounds
      ensures Valid()
      ensures uploadCounter == old(uploadCounter) + 1
      ensures uploadedBackgrounds == old(uploadedBackgrounds)
        + [Background(UploadId(uploadCounter), "Custom Upload " + IntToString(uploadCounter), imageData)]
      ensures !HasId(old(uploadedBackgrounds), UploadId(uploadCounter))
      ensures selectedBackgrounds == AfterUpload(old(selectedBackgrounds), UploadId(uploadCounter), maxDigitalBackgrounds)
    {
      var newCounter := uploadCounter + 1;
      uploadCounter := newCounter;
      var uploaded := Background(UploadId(newCounter), "Custom Upload " + IntToString(newCounter), imageData);
      forall i | 0 <= i < |uploadedBackgrounds| ensures uploadedBackgrounds[i].id != uploaded.id {
        if uploadedBackgrounds[i].id == uploaded.id {
          UploadIdInjective(i + 1, newCounter);
        }
      }
      uploadedBackgrounds := uploadedBackgrounds + [uploaded];
      var rest := WithoutUploads(selectedBackgrounds);
      if |rest| < maxDigitalBackgrounds {
        selectedBackgrounds := rest + [uploaded.id];
      } else {
        selectedBackgrounds := rest;
      }
    }
  }
}
