/**
 * The final receipt screen: the order record it writes to the history, the prices and labels it
 * shows, and how it hides most of each email address on the printed slip.
 */
module Receipt {
  import opened Wrappers
  import opened Seqs
  import opened Text
  import opened Backgrounds
  import opened Pricing
  import opened OrderStore
  import opened DeliveryPayment

  /** What the wizard hands the receipt screen (all texts as the session holds them). */
  datatype ReceiptProps = ReceiptProps(
    userName: string,
    emails: seq<string>,
    numberOfPeople: string,
    selectedBackgrounds: seq<BgId>,
    deliveryMethod: seq<string>,
    numberOfPhotos: string,
    paymentType: string,
    basePrice: string,
    theme: string,
    isFreeDay: bool,
    customerNumber: string,
    capturedPhotos: seq<string>)

  /** `value || fallback` on a text. */
  function OrDefault(value: string, fallback: string): (r: string)
    ensures value != "" ==> r == value
    ensures value == "" ==> r == fallback
  {
    if value == "" then fallback else value
  }

  /** The total the receipt computes, in cents, from the session's texts. */
  function ReceiptTotal(p: ReceiptProps): int {
    InlineTotal(ParseFloatCents(p.basePrice), ParseInt(p.numberOfPhotos), p.deliveryMethod,
                p.selectedBackgrounds, p.isFreeDay)
  }

  /** The record `saveOrderToHistory` builds; the clock's readings are parameters. */
  function NewOrder(p: ReceiptProps, orderNum: string, timestamp: int, date: string, time: string): (r: OrderRecord)
    ensures r.orderNumber == orderNum && r.timestamp == timestamp
    ensures !r.pickupComplete && !r.emailSent && !r.picturesPrinted && !r.pictureTaken
    ensures r.finalPhotos.None?
    ensures r.selectedBackgrounds == p.selectedBackgrounds && r.capturedPhotos == p.capturedPhotos
    ensures r.isFreeDay == p.isFreeDay
  {
    OrderRecord(
      orderNumber := orderNum,
      customerNumber := OrDefault(p.customerNumber, "N/A"),
      timestamp := timestamp,
      date := date,
      time := time,
      userName := OrDefault(p.userName, "Unknown"),
      emails := FilledEntries(p.emails),
      numberOfPeople := OrDefault(p.numberOfPeople, "1"),
      selectedBackgrounds := p.selectedBackgrounds,
      deliveryMethod := p.deliveryMethod,
      numberOfPhotos := OrDefault(p.numberOfPhotos, "1"),
      paymentType := OrDefault(p.paymentType, "cash"),
      basePrice := OrDefault(p.basePrice, "0.00"),
      theme := p.theme,
      isFreeDay := p.isFreeDay,
      totalPrice := MoneyText(ReceiptTotal(p)),
      capturedPhotos := p.capturedPhotos,
      pickupComplete := false,
      emailSent := false,
      picturesPrinted := false,
      pictureTaken := false,
      finalPhotos := None)
  }

  /** The history as `saveOrderToHistory` reads it: anything that is not an array counts as empty. */
  function ExistingOrders(stored: StoredHistory): (r: seq<Option<OrderRecord>>)
    ensures stored.Entries? ==> r == stored.entries
    ensures !stored.Entries? ==> r == []
  {
    if stored.Entries? then stored.entries else []
  }

  /** The most orders the history keeps. */
  const HistoryCap: nat := 500

  /** `orders.unshift(newOrder)` followed by `orders.splice(500)` when longer. */
  function PrependCapped(orders: seq<Option<OrderRecord>>, newOrder: OrderRecord): (r: seq<Option<OrderRecord>>)
    ensures |r| == if |orders| + 1 > HistoryCap then HistoryCap else |orders| + 1
    ensures r[0] == Some(newOrder)
    ensures forall i :: 1 <= i < |r| ==> r[i] == orders[i - 1]
  {
    var withNew := [Some(newOrder)] + orders;
    if |withNew| > HistoryCap then withNew[..HistoryCap] else withNew
  }

  /** Orders are only ever dropped from the old end: the kept ones are a prefix of the previous history. */
  lemma PrependCappedKeepsNewest(orders: seq<Option<OrderRecord>>, newOrder: OrderRecord)
    ensures var r := PrependCapped(orders, newOrder);
            r[1..] <= orders && |orders| - |r[1..]| == if |orders| >= HistoryCap then |orders| - (HistoryCap - 1) else 0
  {
  }

  /** A history that cannot be read as an array is replaced by the new order alone. */
  lemma UnreadableHistoryReplaced(stored: StoredHistory, newOrder: OrderRecord)
    requires stored.Unparsable? || stored.NotArray? || stored.Absent?
    ensures PrependCapped(ExistingOrders(stored), newOrder) == [Some(newOrder)]
  {
  }

  /** `saveOrderToHistory`: nothing happens without an order number; otherwise the new record goes first. */
  method SaveOrderToHistory(storage: HistoryStorage, p: ReceiptProps, orderNum: string,
                            timestamp: int, date: string, time: string)
    modifies storage
    ensures orderNum == "" ==> storage.stored == old(storage.stored)
    ensures orderNum != "" ==>
              storage.stored == Entries(PrependCapped(ExistingOrders(old(storage.stored)),
                                                      NewOrder(p, orderNum, timestamp, date, time)))
  {
    if orderNum == "" {
      return;
    }
    var orders := ExistingOrders(storage.stored);
    var newOrder := NewOrder(p, orderNum, timestamp, date, time);
    orders := [Some(newOrder)] + orders;
    if |orders| > HistoryCap {
      orders := orders[..HistoryCap];
    }
    storage.stored := Entries(orders);
  }

  /** The fields left empty in the session are stored with their defaults. */
  lemma NewOrderDefaults(p: ReceiptProps, orderNum: string, timestamp: int, date: string, time: string)
    ensures var r := NewOrder(p, orderNum, timestamp, date, time);
            && (p.customerNumber == "" ==> r.customerNumber == "N/A")
            && (p.userName == "" ==> r.userName == "Unknown")
            && (p.numberOfPeople == "" ==> r.numberOfPeople == "1")
            && (p.paymentType == "" ==> r.paymentType == "cash")
            && (p.basePrice == "" ==> r.basePrice == "0.00")
            && (p.numberOfPhotos == "" ==> r.numberOfPhotos == "1")
  {
  }

  /** The stored emails are the filled entries of the session's list, in order, and never blank. */
  lemma StoredEmailsAreFilled(p: ReceiptProps, orderNum: string, timestamp: int, date: string, time: string,
                              a: seq<string>, b: seq<string>)
    requires p.emails == a + b
    ensures var r := NewOrder(p, orderNum, timestamp, date, time);
            && r.emails == FilledEntries(a) + FilledEntries(b)
            && (forall e :: e in r.emails ==> !IsBlank(e))
  {
    FilterConcat(a, b, IsFilled);
  }

  /** "0.00", what a free day stores as its total. */
  lemma ZeroMoneyText()
    ensures MoneyText(0) == "0.00"
  {
  }

  /**
   * The stored total reads back as the total `calculatePricing` gives for a duplicate-free selection,
   * and is "0.00" on a free day.
   */
  lemma StoredTotalIsCanonical(p: ReceiptProps, orderNum: string, timestamp: int, date: string, time: string)
    requires NoDuplicates(p.selectedBackgrounds)
    ensures var r := NewOrder(p, orderNum, timestamp, date, time);
            && ParseFloatCents(r.totalPrice)
               == Some(CalculatePricing(ParseFloatCents(p.basePrice), ParseInt(p.numberOfPhotos), p.deliveryMethod,
                                        p.selectedBackgrounds, p.isFreeDay).totalPrice)
            && (p.isFreeDay ==> r.totalPrice == "0.00")
  {
    InlineTotalAgrees(ParseFloatCents(p.basePrice), ParseInt(p.numberOfPhotos), p.deliveryMethod,
                      p.selectedBackgrounds, p.isFreeDay);
    MoneyTextRoundTrip(ReceiptTotal(p));
    ZeroMoneyText();
  }

  /**
   * The receipt's displayed total, which repeats the stored record's formula, equals the total
   * `calculatePricing` gives for a duplicate-free selection, and is 0 on a free day.
   */
  lemma DisplayedTotalIsCanonical(p: ReceiptProps)
    requires NoDuplicates(p.selectedBackgrounds)
    ensures ReceiptTotal(p) == CalculatePricing(ParseFloatCents(p.basePrice), ParseInt(p.numberOfPhotos),
                                                p.deliveryMethod, p.selectedBackgrounds, p.isFreeDay).totalPrice
    ensures p.isFreeDay ==> ReceiptTotal(p) == 0
  {
    InlineTotalAgrees(ParseFloatCents(p.basePrice), ParseInt(p.numberOfPhotos), p.deliveryMethod,
                      p.selectedBackgrounds, p.isFreeDay);
  }

  // Labels on the slip

  /** The payment line: "N/A" when unset, card names spelled out, any other method capitalised. */
  function PaymentLabel(paymentType: string): (r: string)
    ensures paymentType == "" ==> r == "N/A"
    ensures paymentType == "debit" ==> r == "Debit Card"
    ensures paymentType == "credit" ==> r == "Credit Card"
    ensures paymentType != "" ==> r == PaymentDisplayName(paymentType)
  {
    if paymentType == "" then "N/A" else PaymentDisplayName(paymentType)
  }

  /**
   * The redacted form of an email on the printed slip: `email.split('@')` gives the local part and the
   * domain (the text "undefined" when there is no '@'); a local part longer than two characters keeps
   * its first two.
   */
  function Redact(email: string): string {
    var parts := Split(email, '@');
    var localPart := parts[0];
    var domain := if |parts| > 1 then parts[1] else "undefined";
    if |localPart| > 2 then localPart[..2] + "***@" + domain else "***@" + domain
  }

  /** For an address with exactly one '@', at most the first two characters of the local part survive. */
  lemma RedactSingleAt(localPart: string, domain: string)
    requires '@' !in localPart && '@' !in domain
    ensures Redact(localPart + "@" + domain)
            == (if |localPart| > 2 then localPart[..2] else "") + "***@" + domain
  {
    SplitAfterHead(localPart, '@', domain);
    SplitWithout(domain, '@');
  }

  /** An entry without '@' shows the domain as the word "undefined". */
  lemma RedactWithoutAt(email: string)
    requires '@' !in email
    ensures Redact(email) == (if |email| > 2 then email[..2] else "") + "***@undefined"
  {
    SplitWithout(email, '@');
  }
}
