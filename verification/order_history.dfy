/**
 * The admin's order-history tab: loading the stored history into a view, searching it, flipping the
 * four fulfilment flags of an order and naming its backgrounds.
 */
module OrderHistory {
  import opened Wrappers
  import opened Text
  import opened Backgrounds
  import opened OrderStore

  // Search

  /** `(field || '').toLowerCase().includes(query.toLowerCase())` on one text field. */
  predicate FieldMatches(field: string, query: string) {
    Includes(Lower(field), Lower(query))
  }

  predicate SomeEmailMatches(emails: seq<string>, query: string) {
    exists i :: 0 <= i < |emails| && FieldMatches(emails[i], query)
  }

  /** The order number, customer number, name or one of the emails contains the query, ignoring case. */
  predicate Matches(r: OrderRecord, query: string) {
    FieldMatches(r.orderNumber, query) || FieldMatches(r.customerNumber, query)
    || FieldMatches(r.userName, query) || SomeEmailMatches(r.emails, query)
  }

  /** `filteredOrders`: the non-null orders that match, in stored order. */
  function FilteredOrders(orders: seq<Option<OrderRecord>>, query: string): (r: seq<OrderRecord>)
    ensures |r| <= |orders|
    decreases |orders|
  {
    if |orders| == 0 then []
    else
      (if orders[0].Some? && Matches(orders[0].value, query) then [orders[0].value] else [])
      + FilteredOrders(orders[1..], query)
  }

  /** A record is listed exactly when it is a non-null entry that matches. */
  lemma {:induction false} FilteredOrdersMembership(orders: seq<Option<OrderRecord>>, query: string, r: OrderRecord)
    ensures r in FilteredOrders(orders, query) <==> Some(r) in orders && Matches(r, query)
    decreases |orders|
  {
    if |orders| > 0 {
      FilteredOrdersMembership(orders[1..], query, r);
      assert orders == [orders[0]] + orders[1..];
    }
  }

  /** Filtering works entry by entry, so the listed orders keep their stored order. */
  lemma {:induction false} FilteredOrdersConcat(a: seq<Option<OrderRecord>>, b: seq<Option<OrderRecord>>, query: string)
    ensures FilteredOrders(a + b, query) == FilteredOrders(a, query) + FilteredOrders(b, query)
    decreases |a|
  {
    if |a| == 0 {
      assert a + b == b;
    } else {
      assert (a + b)[1..] == a[1..] + b;
      FilteredOrdersConcat(a[1..], b, query);
    }
  }

  /** The non-null entries, in order. */
  function NonNull(orders: seq<Option<OrderRecord>>): seq<OrderRecord>
    decreases |orders|
  {
    if |orders| == 0 then [] else (if orders[0].Some? then [orders[0].value] else []) + NonNull(orders[1..])
  }

  /** An empty query lists every non-null order. */
  lemma {:induction false} EmptyQueryListsAll(orders: seq<Option<OrderRecord>>)
    ensures FilteredOrders(orders, "") == NonNull(orders)
    decreases |orders|
  {
    if |orders| > 0 {
      if orders[0].Some? {
        IncludesEmpty(Lower(orders[0].value.orderNumber));
      }
      EmptyQueryListsAll(orders[1..]);
    }
  }

  /** Queries that differ only in letter case list the same orders. */
  lemma {:induction false} SearchIgnoresCase(orders: seq<Option<OrderRecord>>, q1: string, q2: string)
    requires Lower(q1) == Lower(q2)
    ensures FilteredOrders(orders, q1) == FilteredOrders(orders, q2)
    decreases |orders|
  {
    if |orders| > 0 {
      SearchIgnoresCase(orders[1..], q1, q2);
    }
  }

  // Fulfilment flags

  datatype Flag = PickupComplete | EmailSent | PicturesPrinted | PictureTaken

  function GetFlag(r: OrderRecord, f: Flag): bool {
    match f
    case PickupComplete => r.pickupComplete
    case EmailSent => r.emailSent
    case PicturesPrinted => r.picturesPrinted
    case PictureTaken => r.pictureTaken
  }

  /** The record with flag `f` negated. */
  function FlipFlag(r: OrderRecord, f: Flag): (s: OrderRecord)
    ensures GetFlag(s, f) == !GetFlag(r, f)
    ensures forall g :: g != f ==> GetFlag(s, g) == GetFlag(r, g)
  {
    match f
    case PickupComplete => r.(pickupComplete := !r.pickupComplete)
    case EmailSent => r.(emailSent := !r.emailSent)
    case PicturesPrinted => r.(picturesPrinted := !r.picturesPrinted)
    case PictureTaken => r.(pictureTaken := !r.pictureTaken)
  }

  /** Flipping a flag changes nothing but that flag. */
  lemma FlipFlagOnlyThatFlag(r: OrderRecord, f: Flag)
    ensures FlipFlag(FlipFlag(r, f), f) == r
    ensures var s := FlipFlag(r, f);
            s.orderNumber == r.orderNumber && s.customerNumber == r.customerNumber && s.emails == r.emails
            && s.selectedBackgrounds == r.selectedBackgrounds && s.totalPrice == r.totalPrice
            && s.finalPhotos == r.finalPhotos && s.timestamp == r.timestamp
  {
  }

  /** `orders.map(order => order && order.orderNumber === n ? {...order, flag: !order.flag} : order)` */
  function ToggleOrders(orders: seq<Option<OrderRecord>>, f: Flag, orderNumber: string): (r: seq<Option<OrderRecord>>)
    ensures |r| == |orders|
    ensures forall i :: 0 <= i < |orders| ==>
              if orders[i].Some? && orders[i].value.orderNumber == orderNumber
              then r[i] == Some(FlipFlag(orders[i].value, f))
              else r[i] == orders[i]
  {
    seq(|orders|, i requires 0 <= i < |orders| =>
      if orders[i].Some? && orders[i].value.orderNumber == orderNumber then Some(FlipFlag(orders[i].value, f)) else orders[i])
  }

  /** Applying the same toggle twice gives back the list. */
  lemma ToggleTwiceRestores(orders: seq<Option<OrderRecord>>, f: Flag, orderNumber: string)
    ensures ToggleOrders(ToggleOrders(orders, f, orderNumber), f, orderNumber) == orders
  {
    var once := ToggleOrders(orders, f, orderNumber);
    var twice := ToggleOrders(once, f, orderNumber);
    forall i | 0 <= i < |orders| ensures twice[i] == orders[i] {
      if orders[i].Some? && orders[i].value.orderNumber == orderNumber {
        FlipFlagOnlyThatFlag(orders[i].value, f);
      }
    }
  }

  // Background names on the receipt dialog

  /** `getBackgroundName` of the history tab. */
  function HistoryBackgroundName(id: BgId): (name: string)
    ensures id.Num? && 1 <= id.n <= 12 ==> name == Catalogue[id.n - 1].name
    ensures id.Num? && !(1 <= id.n <= 12) ==> name == "Background " + IntToString(id.n)
    ensures IsUploaded(id) ==> name == "Custom Upload " + id.s[|UploadedPrefix|..]
    ensures id.Str? && id.s in CustomBackgroundNames ==> name == CustomBackgroundNames[id.s]
    ensures IsExtra(id) && id.s !in CustomBackgroundNames ==> name == "Extra " + id.s[|ExtraPrefix|..]
    ensures id.Str? && !IsKnownShape(id) ==> name == id.s
  {
    match id
    case Num(n) =>
      CatalogueNameAt(n);
      (match CatalogueName(Catalogue, n)
       case Some(catalogueName) => catalogueName
       case None => "Background " + IntToString(n))
    case Str(s) =>
      if s in CustomBackgroundNames && CustomBackgroundNames[s] != "" then CustomBackgroundNames[s]
      else if StartsWith(s, UploadedPrefix) then "Custom Upload " + s[|UploadedPrefix|..]
      else if StartsWith(s, ExtraPrefix) then "Extra " + s[|ExtraPrefix|..]
      else s
  }

  /** An upload created as number k is shown under the name it was created with. */
  lemma UploadNameConsistent(k: nat)
    ensures HistoryBackgroundName(Str(UploadedPrefix + NatToString(k))) == "Custom Upload " + NatToString(k)
  {
    var s := UploadedPrefix + NatToString(k);
    assert s[|UploadedPrefix|..] == NatToString(k);
    assert StartsWith(s, UploadedPrefix);
  }

  /** The tab's view of the history, loaded from the shared storage slot. */
  class OrderHistoryView {
    var orders: seq<Option<OrderRecord>>
    const storage: HistoryStorage

    constructor(storage: HistoryStorage)
      ensures this.storage == storage && orders == []
    {
      this.storage := storage;
      orders := [];
    }

    /** `loadOrders`: an array replaces the view, anything unreadable empties it; storage is never written. */
    method LoadOrders()
      modifies this`orders
      ensures old(storage.stored).Absent? ==> orders == old(orders)
      ensures old(storage.stored).Entries? ==> orders == old(storage.stored).entries
      ensures old(storage.stored).Unparsable? || old(storage.stored).NotArray? ==> orders == []
    {
      match storage.stored
      case Absent =>
      case Entries(entries) => orders := entries;
      case Unparsable => orders := [];
      case NotArray => orders := [];
    }

    /** The four `handleMark*` handlers: flip flag `f` on every order with that number and persist the view. */
    method MarkFlag(f: Flag, orderNumber: string)
      modifies this`orders, storage
      ensures orderNumber == "" ==> orders == old(orders) && storage.stored == old(storage.stored)
      ensures orderNumber != "" ==> orders == ToggleOrders(old(orders), f, orderNumber)
      ensures orderNumber != "" ==> storage.stored == Entries(orders)
    {
      if orderNumber == "" {
        return;
      }
      var updatedOrders := ToggleOrders(orders, f, orderNumber);
      orders := updatedOrders;
      storage.stored := Entries(updatedOrders);
    }
  }
}
