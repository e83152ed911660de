/**
 * The admin's final-photo upload tab: reading an order number out of a photo's file name, matching it
 * against the stored history and attaching the photos to the matching orders.
 */
module FinalPhotos {
  import opened Wrappers
  import opened Seqs
  import opened Text
  import opened OrderStore

  // Order numbers in file names

  /** The five patterns, tried in this order. */
  datatype Pattern =
    | DigitsThenDot      // /^(\d{4})\./
    | OrderTag           // /order[_-]?(\d{4})/i
    | PhotoTag           // /photo[_-]?(\d{4})/i
    | DigitsThenPhoto    // /(\d{4})[_-]?photo/i
    | AnyFourDigits      // /(\d{4})/

  const Patterns: seq<Pattern> := [DigitsThenDot, OrderTag, PhotoTag, DigitsThenPhoto, AnyFourDigits]

  /** Four ASCII digits start at position p. */
  predicate FourDigitsAt(s: string, p: int) {
    0 <= p && p + 4 <= |s| && AllDigits(s[p..p + 4])
  }

  /** The name holds a run of four digits somewhere. */
  predicate HasDigitRun(s: string) {
    exists q :: 0 <= q <= |s| - 4 && FourDigitsAt(s, q)
  }

  predicate IsSeparator(c: char) {
    c == '_' || c == '-'
  }

  /** The lower-case word `tag` occurs at p, ignoring ASCII case. */
  predicate TagAt(s: string, p: int, tag: string) {
    0 <= p && p + |tag| <= |s| && Lower(s[p..p + |tag|]) == tag
  }

  /** `tag[_-]?(\d{4})` at p: the separator is tried first, then its absence. */
  function TagThenDigits(s: string, p: int, tag: string): (r: Option<string>)
    ensures r.Some? ==> exists q :: FourDigitsAt(s, q) && r.value == s[q..q + 4]
  {
    if !TagAt(s, p, tag) then None
    else
      var q := p + |tag|;
      if q < |s| && IsSeparator(s[q]) && FourDigitsAt(s, q + 1) then Some(s[q + 1..q + 5])
      else if FourDigitsAt(s, q) then Some(s[q..q + 4])
      else None
  }

  /** `(\d{4})[_-]?tag` at p. */
  function DigitsThenTag(s: string, p: int, tag: string): (r: Option<string>)
    ensures r.Some? ==> FourDigitsAt(s, p) && r.value == s[p..p + 4]
  {
    if !FourDigitsAt(s, p) then None
    else if p + 4 < |s| && IsSeparator(s[p + 4]) && TagAt(s, p + 5, tag) then Some(s[p..p + 4])
    else if TagAt(s, p + 4, tag) then Some(s[p..p + 4])
    else None
  }

  /** The captured digits when `pat` matches starting at position p. */
  function MatchAt(pat: Pattern, s: string, p: int): (r: Option<string>)
    ensures r.Some? ==> exists q :: FourDigitsAt(s, q) && r.value == s[q..q + 4]
    ensures pat == AnyFourDigits ==> (r.Some? <==> FourDigitsAt(s, p))
  {
    match pat
    case DigitsThenDot => if p == 0 && FourDigitsAt(s, 0) && 4 < |s| && s[4] == '.' then Some(s[..4]) else None
    case OrderTag => TagThenDigits(s, p, "order")
    case PhotoTag => TagThenDigits(s, p, "photo")
    case DigitsThenPhoto => DigitsThenTag(s, p, "photo")
    case AnyFourDigits => if FourDigitsAt(s, p) then Some(s[p..p + 4]) else None
  }

  /** `s.match(pat)`: the leftmost position from p on where the pattern matches. */
  function Search(pat: Pattern, s: string, p: nat): (r: Option<string>)
    requires p <= |s|
    ensures r.Some? ==> exists q :: FourDigitsAt(s, q) && r.value == s[q..q + 4]
    decreases |s| - p
  {
    match MatchAt(pat, s, p)
    case Some(d) => Some(d)
    case None => if p == |s| then None else Search(pat, s, p + 1)
  }

  /** The bare four-digit pattern finds something from p on exactly when a run starts at or after p. */
  lemma {:induction false} SearchAnyDigits(s: string, p: nat)
    requires p <= |s|
    ensures Search(AnyFourDigits, s, p).Some? <==> exists q :: p <= q <= |s| - 4 && FourDigitsAt(s, q)
    decreases |s| - p
  {
    if !FourDigitsAt(s, p) && p < |s| {
      SearchAnyDigits(s, p + 1);
      if exists q :: p <= q <= |s| - 4 && FourDigitsAt(s, q) {
        var q :| p <= q <= |s| - 4 && FourDigitsAt(s, q);
        assert q != p;
      }
    }
  }

  /** The first pattern of `pats` that matches decides. */
  function FirstMatch(pats: seq<Pattern>, s: string): (r: Option<string>)
    ensures r.Some? ==> exists q :: FourDigitsAt(s, q) && r.value == s[q..q + 4]
  {
    if |pats| == 0 then None
    else match Search(pats[0], s, 0)
      case Some(d) => Some(d)
      case None => FirstMatch(pats[1..], s)
  }

  /**
   * `extractOrderNumber`: try the patterns in order and return the first capture; `None` exactly when
   * the name holds no four digits in a row, otherwise four digits that occur together in the name.
   */
  method ExtractOrderNumber(filename: string) returns (orderNumber: Option<string>)
    ensures orderNumber == FirstMatch(Patterns, filename)
    ensures orderNumber.None? <==> !HasDigitRun(filename)
    ensures orderNumber.Some? ==> |orderNumber.value| == 4 && AllDigits(orderNumber.value)
    ensures orderNumber.Some? ==> exists q :: FourDigitsAt(filename, q) && orderNumber.value == filename[q..q + 4]
  {
    ExtractionFindsRuns(filename);
    for k := 0 to |Patterns|
      invariant FirstMatch(Patterns, filename) == FirstMatch(Patterns[k..], filename)
    {
      var found := Search(Patterns[k], filename, 0);
      if found.Some? {
        return found;
      }
      assert Patterns[k..][1..] == Patterns[k + 1..];
    }
    orderNumber := None;
  }

  /** The pattern list ends with the bare four-digit pattern, so it fails only on names without a run. */
  lemma ExtractionFindsRuns(filename: string)
    ensures FirstMatch(Patterns, filename).None? <==> !HasDigitRun(filename)
  {
    var r := FirstMatch(Patterns, filename);
    if r.Some? {
      var q :| FourDigitsAt(filename, q) && r.value == filename[q..q + 4];
      assert 0 <= q <= |filename| - 4;
    } else {
      var p1 := Patterns[1..];
      var p2 := p1[1..];
      var p3 := p2[1..];
      var p4 := p3[1..];
      assert p4 == [AnyFourDigits] && p4[1..] == [];
      assert r == FirstMatch(p1, filename);
      assert r == FirstMatch(p2, filename);
      assert r == FirstMatch(p3, filename);
      assert r == FirstMatch(p4, filename);
      assert Search(AnyFourDigits, filename, 0).None?;
      SearchAnyDigits(filename, 0);
    }
  }

  /** A name that is just an order number and an extension yields that number. */
  lemma PlainNameExample()
    ensures FirstMatch(Patterns, "0001.jpg") == Some("0001")
  {
    var s := "0001.jpg";
    assert s[0..4] == "0001" && s[..4] == "0001";
    assert FourDigitsAt(s, 0);
    assert MatchAt(DigitsThenDot, s, 0) == Some("0001");
  }

  /** A tagged order number wins over four digits earlier in the name. */
  lemma TaggedNameExample()
    ensures FirstMatch(Patterns, "IMG1234_order-0042.png") == Some("0042")
  {
    var s := "IMG1234_order-0042.png";
    ExampleNotAnchored(s);
    SearchNothing(DigitsThenDot, s, 0);
    ExampleOrderTag(s);
    ExampleNoEarlierTag(s);
    SearchSkips(OrderTag, s, 0, 8);
    assert Patterns[1..][0] == OrderTag;
  }

  lemma ExampleNotAnchored(s: string)
    requires s == "IMG1234_order-0042.png"
    ensures MatchAt(DigitsThenDot, s, 0).None?
  {
    assert s[0..4][0] == 'I';
  }

  lemma ExampleOrderTag(s: string)
    requires s == "IMG1234_order-0042.png"
    ensures MatchAt(OrderTag, s, 8) == Some("0042")
  {
    assert s[8] == 'o' && s[9] == 'r' && s[10] == 'd' && s[11] == 'e' && s[12] == 'r';
    assert s[8..13] == "order";
    assert Lower(s[8..13]) == "order";
    var found := s[14..18];
    forall i | 0 <= i < 4 ensures found[i] == "0042"[i] {
      assert found[i] == s[14 + i];
    }
    assert found == "0042";
    assert s[13] == '-';
    assert FourDigitsAt(s, 14);
  }

  lemma ExampleNoEarlierTag(s: string)
    requires s == "IMG1234_order-0042.png"
    ensures forall p :: 0 <= p < 8 ==> MatchAt(OrderTag, s, p) == None
  {
    forall p | 0 <= p < 8 ensures MatchAt(OrderTag, s, p) == None {
      assert s[p] != 'o' && s[p] != 'O';
      assert Lower(s[p..p + 5])[0] == LowerChar(s[p]);
    }
  }

  /** The anchored pattern never matches past the start. */
  lemma {:induction false} SearchNothing(pat: Pattern, s: string, p: nat)
    requires p <= |s| && pat == DigitsThenDot && (p > 0 || MatchAt(pat, s, 0).None?)
    ensures Search(pat, s, p) == None
    decreases |s| - p
  {
    if p < |s| {
      SearchNothing(pat, s, p + 1);
    }
  }

  /** When no position before `q` matches, the search from p finds what the search from q finds. */
  lemma {:induction false} SearchSkips(pat: Pattern, s: string, p: nat, q: nat)
    requires p <= q <= |s|
    requires forall k :: p <= k < q ==> MatchAt(pat, s, k) == None
    ensures Search(pat, s, p) == Search(pat, s, q)
    decreases q - p
  {
    if p < q {
      SearchSkips(pat, s, p + 1, q);
    }
  }

  // Matching against the stored history

  /** `orders.find(order => order.orderNumber === n)`: reading a field of a null entry throws, which gives null. */
  function FindIn(entries: seq<Option<OrderRecord>>, orderNumber: string): (r: Option<OrderRecord>)
    ensures r.Some? ==> r.value.orderNumber == orderNumber && Some(r.value) in entries
    decreases |entries|
  {
    if |entries| == 0 then None
    else match entries[0]
      case None => None
      case Some(order) => if order.orderNumber == orderNumber then Some(order) else FindIn(entries[1..], orderNumber)
  }

  /** `findMatchingOrder`: only an array of orders can match. */
  function FindMatchingOrder(stored: StoredHistory, orderNumber: string): (r: Option<OrderRecord>)
    ensures !stored.Entries? ==> r.None?
    ensures r.Some? ==> r.value.orderNumber == orderNumber
  {
    if stored.Entries? then FindIn(stored.entries, orderNumber) else None
  }

  /** Without null entries the first order with that number is found, and one is found whenever there is one. */
  lemma {:induction false} FindInFirst(entries: seq<Option<OrderRecord>>, orderNumber: string)
    requires forall i :: 0 <= i < |entries| ==> entries[i].Some?
    ensures var r := FindIn(entries, orderNumber);
            && (r.Some? <==> exists i :: 0 <= i < |entries| && entries[i].value.orderNumber == orderNumber)
            && (r.Some? ==> exists i :: (0 <= i < |entries| && entries[i] == r
                                         && forall j :: 0 <= j < i ==> entries[j].value.orderNumber != orderNumber))
    decreases |entries|
  {
    if |entries| > 0 && entries[0].value.orderNumber != orderNumber {
      var tail := entries[1..];
      FindInFirst(tail, orderNumber);
      if FindIn(tail, orderNumber).Some? {
        var i :| 0 <= i < |tail| && tail[i] == FindIn(tail, orderNumber)
                 && forall j :: 0 <= j < i ==> tail[j].value.orderNumber != orderNumber;
        assert entries[i + 1] == tail[i];
        forall j | 0 <= j < i + 1 ensures entries[j].value.orderNumber != orderNumber {
          if j > 0 {
            assert entries[j] == tail[j - 1];
          }
        }
      }
      if exists i :: 0 <= i < |entries| && entries[i].value.orderNumber == orderNumber {
        var i :| 0 <= i < |entries| && entries[i].value.orderNumber == orderNumber;
        assert i > 0 && tail[i - 1] == entries[i];
      }
    }
  }

  // Accepted file types

  const ValidImageTypes: seq<string> := ["image/jpeg", "image/jpg", "image/png", "image/gif", "image/bmp",
                                         "image/webp", "image/heic", "image/heif", "image/tiff", "image/svg+xml"]

  const ValidExtensions: seq<string> := [".jpg", ".jpeg", ".png", ".gif", ".bmp", ".webp", ".heic", ".heif",
                                         ".tiff", ".tif", ".svg"]

  /** A listed MIME type, or a name ending in a listed extension in any ASCII case. */
  predicate IsAcceptedFile(mimeType: string, name: string) {
    mimeType in ValidImageTypes || exists i :: 0 <= i < |ValidExtensions| && EndsWith(Lower(name), ValidExtensions[i])
  }

  /** Acceptance by name ignores letter case. */
  lemma AcceptanceIgnoresCase(mimeType: string, name1: string, name2: string)
    requires Lower(name1) == Lower(name2)
    ensures IsAcceptedFile(mimeType, name1) <==> IsAcceptedFile(mimeType, name2)
  {
  }

  /** An upper-case JPEG name is accepted whatever type the browser reports. */
  lemma UpperCaseNameAccepted()
    ensures IsAcceptedFile("", "PHOTO.JPG")
  {
    var lower := Lower("PHOTO.JPG");
    assert lower[5..] == ".jpg";
    assert EndsWith(lower, ValidExtensions[0]);
  }

  /** A name ending in 't' with a non-image type is refused. */
  lemma TextFileRefused(name: string)
    requires |name| > 0 && name[|name| - 1] == 't'
    ensures !IsAcceptedFile("text/plain", name)
  {
    var lower := Lower(name);
    forall i | 0 <= i < |ValidExtensions| ensures !EndsWith(lower, ValidExtensions[i]) {
      var ext := ValidExtensions[i];
      assert ext[|ext| - 1] != 't';
    }
  }

  // Attaching photos

  /** A file waiting in the tab: its preview (data URL), the number read from its name and whether an order matched. */
  datatype PendingFile = PendingFile(name: string, preview: string, orderNumber: Option<string>, matched: bool)

  /** `matched && orderNumber`: the files the upload attaches. */
  predicate Eligible(f: PendingFile) {
    f.matched && f.orderNumber.Some? && f.orderNumber.value != ""
  }

  /** `order.finalPhotos || []` */
  function Photos(r: OrderRecord): seq<string> {
    r.finalPhotos.UnwrapOr([])
  }

  /** Whether attaching `preview` for `orderNumber` appends to this entry. */
  predicate Appends(e: Option<OrderRecord>, orderNumber: string, preview: string) {
    e.Some? && e.value.orderNumber == orderNumber && preview !in Photos(e.value)
  }

  /** One entry after attaching `preview` for `orderNumber`: appended unless already present. */
  function AttachEntry(e: Option<OrderRecord>, orderNumber: string, preview: string): (r: Option<OrderRecord>)
    ensures r.Some? <==> e.Some?
    ensures Appends(e, orderNumber, preview) ==> r.value == e.value.(finalPhotos := Some(Photos(e.value) + [preview]))
    ensures !Appends(e, orderNumber, preview) ==> r == e
  {
    if Appends(e, orderNumber, preview) then Some(e.value.(finalPhotos := Some(Photos(e.value) + [preview]))) else e
  }

  /** The history after one file: every entry with its number gets the preview. */
  function ApplyFile(orders: seq<Option<OrderRecord>>, f: PendingFile): (r: seq<Option<OrderRecord>>)
    ensures |r| == |orders|
  {
    if Eligible(f) then seq(|orders|, i requires 0 <= i < |orders| => AttachEntry(orders[i], f.orderNumber.value, f.preview))
    else orders
  }

  /** How many entries the first `n` entries gain from attaching `preview` for `orderNumber`. */
  function CountAppends(orders: seq<Option<OrderRecord>>, orderNumber: string, preview: string): nat
    decreases |orders|
  {
    if |orders| == 0 then 0
    else CountAppends(orders[..|orders| - 1], orderNumber, preview)
         + (if Appends(orders[|orders| - 1], orderNumber, preview) then 1 else 0)
  }

  function FileCount(orders: seq<Option<OrderRecord>>, f: PendingFile): nat {
    if Eligible(f) then CountAppends(orders, f.orderNumber.value, f.preview) else 0
  }

  /** The history after the files, in order. */
  function ApplyFiles(orders: seq<Option<OrderRecord>>, files: seq<PendingFile>): (r: seq<Option<OrderRecord>>)
    ensures |r| == |orders|
    decreases |files|
  {
    if |files| == 0 then orders else ApplyFile(ApplyFiles(orders, files[..|files| - 1]), files[|files| - 1])
  }

  /** `uploadCount` after the files. */
  function UploadCount(orders: seq<Option<OrderRecord>>, files: seq<PendingFile>): nat
    decreases |files|
  {
    if |files| == 0 then 0
    else UploadCount(orders, files[..|files| - 1]) + FileCount(ApplyFiles(orders, files[..|files| - 1]), files[|files| - 1])
  }

  /** The number of final photos over all orders. */
  function TotalPhotos(orders: seq<Option<OrderRecord>>): nat
    decreases |orders|
  {
    if |orders| == 0 then 0
    else TotalPhotos(orders[..|orders| - 1]) + (match orders[|orders| - 1] case Some(r) => |Photos(r)| case None => 0)
  }

  /** Attaching one file adds exactly as many photos as it counts. */
  lemma {:induction false} ApplyFileCounts(orders: seq<Option<OrderRecord>>, f: PendingFile)
    ensures TotalPhotos(ApplyFile(orders, f)) == TotalPhotos(orders) + FileCount(orders, f)
    decreases |orders|
  {
    if Eligible(f) && |orders| > 0 {
      var init := orders[..|orders| - 1];
      ApplyFileCounts(init, f);
      assert ApplyFile(orders, f)[..|orders| - 1] == ApplyFile(init, f);
    }
  }

  /** `uploadCount` is the number of photos the upload adds to the history. */
  lemma {:induction false} UploadCountIsPhotosAdded(orders: seq<Option<OrderRecord>>, files: seq<PendingFile>)
    ensures TotalPhotos(ApplyFiles(orders, files)) == TotalPhotos(orders) + UploadCount(orders, files)
    decreases |files|
  {
    if |files| > 0 {
      UploadCountIsPhotosAdded(orders, files[..|files| - 1]);
      ApplyFileCounts(ApplyFiles(orders, files[..|files| - 1]), files[|files| - 1]);
    }
  }

  /** What the upload may do to one entry: only its final photos grow, by previews it did not hold. */
  predicate OnlyPhotosGrew(before: Option<OrderRecord>, after: Option<OrderRecord>) {
    && (after.Some? <==> before.Some?)
    && (before.Some? ==>
          && after.value.(finalPhotos := before.value.finalPhotos) == before.value
          && Photos(before.value) <= Photos(after.value)
          && (NoDuplicates(Photos(before.value)) ==> NoDuplicates(Photos(after.value))))
  }

  lemma OnlyPhotosGrewTrans(a: Option<OrderRecord>, b: Option<OrderRecord>, c: Option<OrderRecord>)
    requires OnlyPhotosGrew(a, b) && OnlyPhotosGrew(b, c)
    ensures OnlyPhotosGrew(a, c)
  {
  }

  /** Numbers of the files the upload attaches. */
  predicate NumberAmong(files: seq<PendingFile>, orderNumber: string) {
    exists k :: 0 <= k < |files| && Eligible(files[k]) && files[k].orderNumber.value == orderNumber
  }

  /**
   * The upload changes only final photos, keeps the length and order of the history, never adds a
   * preview an order already holds, and leaves orders no attached file names untouched.
   */
  lemma {:induction false} ApplyFilesChangesOnlyPhotos(orders: seq<Option<OrderRecord>>, files: seq<PendingFile>, i: int)
    requires 0 <= i < |orders|
    ensures OnlyPhotosGrew(orders[i], ApplyFiles(orders, files)[i])
    ensures orders[i].Some? && !NumberAmong(files, orders[i].value.orderNumber) ==> ApplyFiles(orders, files)[i] == orders[i]
    decreases |files|
  {
    if |files| > 0 {
      var init := files[..|files| - 1];
      var f := files[|files| - 1];
      ApplyFilesChangesOnlyPhotos(orders, init, i);
      var mid := ApplyFiles(orders, init);
      if mid[i].Some? {
        var r := mid[i].value;
        if Eligible(f) && Appends(mid[i], f.orderNumber.value, f.preview) {
          var after := ApplyFile(mid, f)[i];
          assert after.value == r.(finalPhotos := Some(Photos(r) + [f.preview]));
          assert Photos(after.value) == Photos(r) + [f.preview];
          if NoDuplicates(Photos(r)) {
            AppendNoDuplicates(Photos(r), f.preview);
          }
          assert OnlyPhotosGrew(mid[i], after);
          OnlyPhotosGrewTrans(orders[i], mid[i], after);
        }
      }
      if orders[i].Some? && !NumberAmong(files, orders[i].value.orderNumber) {
        assert !NumberAmong(init, orders[i].value.orderNumber) by {
          forall k | 0 <= k < |init| ensures !(Eligible(init[k]) && init[k].orderNumber.value == orders[i].value.orderNumber) {
            assert init[k] == files[k];
          }
        }
      }
    }
  }

  // The tab

  datatype StatusKind = Success | Error | Info

  datatype UploadStatus = UploadStatus(kind: StatusKind, message: string)

  /** `n > 1 ? 's' : ''` */
  function Plural(n: nat): string {
    if n > 1 then "s" else ""
  }

  function UploadedMessage(count: nat): string {
    "Successfully uploaded " + NatToString(count) + " final photo" + Plural(count) + " to matched orders!"
  }

  const NoOrdersMessage: string := "No orders found in the system."
  const FailedMessage: string := "Failed to upload photos. Please try again."

  predicate AnyEligible(files: seq<PendingFile>) {
    exists k :: 0 <= k < |files| && Eligible(files[k])
  }

  predicate HasNull(entries: seq<Option<OrderRecord>>) {
    exists j :: 0 <= j < |entries| && entries[j].None?
  }

  /** Some file would be attached and the history holds a null entry (reading its number throws). */
  predicate UploadThrows(entries: seq<Option<OrderRecord>>, files: seq<PendingFile>) {
    AnyEligible(files) && HasNull(entries)
  }

  /** The files waiting in the tab, the status line and the history slot it writes. */
  class FinalPhotoUploader {
    var uploadedFiles: seq<PendingFile>
    var status: Option<UploadStatus>
    const storage: HistoryStorage

    constructor(storage: HistoryStorage)
      ensures this.storage == storage && uploadedFiles == [] && status.None?
    {
      this.storage := storage;
      uploadedFiles := [];
      status := None;
    }

    /**
     * `handleUploadToOrders`: with no stored history it reports so and writes nothing; an unreadable history
     * (or, once a file is to be attached, a non-array or a null entry) fails without writing; otherwise
     * every eligible file's preview is attached to the orders with its number and the count reported.
     */
    method HandleUploadToOrders()
      modifies this`status, storage
      ensures old(storage.stored).Absent? ==>
                storage.stored == old(storage.stored) && status == Some(UploadStatus(Error, NoOrdersMessage))
      ensures old(storage.stored).Unparsable? ==>
                storage.stored == old(storage.stored) && status == Some(UploadStatus(Error, FailedMessage))
      ensures old(storage.stored).NotArray? ==>
                storage.stored == old(storage.stored)
                && status == Some(if AnyEligible(uploadedFiles) then UploadStatus(Error, FailedMessage) else UploadStatus(Success, UploadedMessage(0)))
      ensures old(storage.stored).Entries? && UploadThrows(old(storage.stored).entries, uploadedFiles) ==>
                storage.stored == old(storage.stored) && status == Some(UploadStatus(Error, FailedMessage))
      ensures old(storage.stored).Entries? && !UploadThrows(old(storage.stored).entries, uploadedFiles) ==>
                storage.stored == Entries(ApplyFiles(old(storage.stored).entries, uploadedFiles))
                && status == Some(UploadStatus(Success, UploadedMessage(UploadCount(old(storage.stored).entries, uploadedFiles))))
    {
      match storage.stored {
        case Absent =>
          status := Some(UploadStatus(Error, NoOrdersMessage));
        case Unparsable =>
          status := Some(UploadStatus(Error, FailedMessage));
        case NotArray =>
          if AnyEligible(uploadedFiles) {
            status := Some(UploadStatus(Error, FailedMessage));
          } else {
            status := Some(UploadStatus(Success, UploadedMessage(0)));
          }
        case Entries(entries) =>
          var orders, uploadCount, failed := AttachFiles(entries, uploadedFiles);
          if failed {
            status := Some(UploadStatus(Error, FailedMessage));
          } else {
            assert uploadedFiles[..|uploadedFiles|] == uploadedFiles;
            storage.stored := Entries(orders);
            status := Some(UploadStatus(Success, UploadedMessage(uploadCount)));
          }
      }
    }

    /** `removeFile(index)`: drop the file at that position and clear the status. */
    method RemoveFile(index: int)
      modifies this`uploadedFiles, this`status
      ensures 0 <= index < |old(uploadedFiles)| ==>
                uploadedFiles == old(uploadedFiles)[..index] + old(uploadedFiles)[index + 1..]
      ensures !(0 <= index < |old(uploadedFiles)|) ==> uploadedFiles == old(uploadedFiles)
      ensures status.None?
    {
      if 0 <= index < |uploadedFiles| {
        uploadedFiles := uploadedFiles[..index] + uploadedFiles[index + 1..];
      }
      status := None;
    }

    /** `clearAll` */
    method ClearAll()
      modifies this`uploadedFiles, this`status
      ensures uploadedFiles == [] && status.None?
    {
      uploadedFiles := [];
      status := None;
    }
  }

  /**
   * The upload's loop over the files: each eligible file's preview is attached to the orders and the
   * appends counted; `failed` reports the throw on a null entry, which stops the loop.
   */
  method AttachFiles(entries: seq<Option<OrderRecord>>, files: seq<PendingFile>)
    returns (orders: seq<Option<OrderRecord>>, uploadCount: nat, failed: bool)
    ensures failed <==> UploadThrows(entries, files)
    ensures !failed ==> orders == ApplyFiles(entries, files) && uploadCount == UploadCount(entries, files)
  {
    orders := entries;
    uploadCount := 0;
    failed := false;
    var k := 0;
    while k < |files| && !failed
      invariant 0 <= k <= |files|
      invariant !failed ==> orders == ApplyFiles(entries, files[..k])
      invariant !failed ==> uploadCount == UploadCount(entries, files[..k])
      invariant !failed && AnyEligible(files[..k]) ==> !HasNull(entries)
      invariant failed ==> UploadThrows(entries, files)
    {
      var f := files[k];
      FilesStep(entries, files, k);
      if Eligible(f) {
        var updated, added, ok := AttachPreview(orders, f.orderNumber.value, f.preview);
        NullsStay(entries, files[..k]);
        if !ok {
          failed := true;
          EligibleIn(files, k);
        } else {
          orders := updated;
          uploadCount := uploadCount + added;
        }
      }
      k := k + 1;
    }
    assert files[..|files|] == files;
  }

  /** What the files up to and including the `k`-th do, in terms of those before it. */
  lemma FilesStep(entries: seq<Option<OrderRecord>>, files: seq<PendingFile>, k: int)
    requires 0 <= k < |files|
    ensures ApplyFiles(entries, files[..k + 1]) == ApplyFile(ApplyFiles(entries, files[..k]), files[k])
    ensures UploadCount(entries, files[..k + 1])
            == UploadCount(entries, files[..k]) + FileCount(ApplyFiles(entries, files[..k]), files[k])
    ensures AnyEligible(files[..k + 1]) <==> AnyEligible(files[..k]) || Eligible(files[k])
  {
    var pre, pre1 := files[..k], files[..k + 1];
    assert pre1[..k] == pre && pre1[k] == files[k];
    if AnyEligible(pre1) && !Eligible(files[k]) {
      var i :| 0 <= i < k + 1 && Eligible(pre1[i]);
      assert pre[i] == pre1[i];
    }
    if AnyEligible(pre) {
      var i :| 0 <= i < k && Eligible(pre[i]);
      assert pre1[i] == pre[i];
    }
    if Eligible(files[k]) {
      assert Eligible(pre1[k]);
    }
  }

  lemma EligibleIn(files: seq<PendingFile>, k: int)
    requires 0 <= k < |files| && Eligible(files[k])
    ensures AnyEligible(files)
  {
  }

  /** The upload neither creates nor fills null entries. */
  lemma NullsStay(entries: seq<Option<OrderRecord>>, files: seq<PendingFile>)
    ensures HasNull(ApplyFiles(entries, files)) <==> HasNull(entries)
  {
    forall j | 0 <= j < |entries| ensures ApplyFiles(entries, files)[j].None? <==> entries[j].None? {
      ApplyFilesChangesOnlyPhotos(entries, files, j);
    }
  }

  /**
   * `orders.map(...)` for one file: walks the entries, appending `preview` where the number matches and
   * counting the appends; `ok` is false when an entry is null (the walk throws there).
   */
  method AttachPreview(orders: seq<Option<OrderRecord>>, orderNumber: string, preview: string)
    returns (updated: seq<Option<OrderRecord>>, added: nat, ok: bool)
    ensures ok <==> forall j :: 0 <= j < |orders| ==> orders[j].Some?
    ensures ok ==> updated == seq(|orders|, i requires 0 <= i < |orders| => AttachEntry(orders[i], orderNumber, preview))
    ensures ok ==> added == CountAppends(orders, orderNumber, preview)
  {
    updated := [];
    added := 0;
    var j := 0;
    while j < |orders|
      invariant 0 <= j <= |orders|
      invariant forall i :: 0 <= i < j ==> orders[i].Some?
      invariant |updated| == j
      invariant forall i :: 0 <= i < j ==> updated[i] == AttachEntry(orders[i], orderNumber, preview)
      invariant added == CountAppends(orders[..j], orderNumber, preview)
    {
      if orders[j].None? {
        ok := false;
        return;
      }
      assert orders[..j + 1][..j] == orders[..j];
      if Appends(orders[j], orderNumber, preview) {
        added := added + 1;
      }
      updated := updated + [AttachEntry(orders[j], orderNumber, preview)];
      j := j + 1;
    }
    assert orders[..j] == orders;
    ok := true;
  }
}
