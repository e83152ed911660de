/**
 * The persisted order history: the value kept under the storage key "orderHistory" as the screens
 * that read it see it after `JSON.parse`. Entries may be `null` (`None`); a stored value that is not
 * JSON text or not an array is kept as such, since the admin screens refuse to overwrite it on load.
 */
module OrderStore {
  import opened Wrappers
  import opened Backgrounds

  /** One completed order, as the receipt screen writes it. */
  datatype OrderRecord = OrderRecord(
    orderNumber: string,
    customerNumber: string,
    timestamp: int,
    date: string,
    time: string,
    userName: string,
    emails: seq<string>,
    numberOfPeople: string,
    selectedBackgrounds: seq<BgId>,
    deliveryMethod: seq<string>,
    numberOfPhotos: string,
    paymentType: string,
    basePrice: string,
    theme: string,
    isFreeDay: bool,
    totalPrice: string,
    capturedPhotos: seq<string>,
    pickupComplete: bool,
    emailSent: bool,
    picturesPrinted: bool,
    pictureTaken: bool,
    finalPhotos: Option<seq<string>>)

  /** What reading the key and parsing it gives. */
  datatype StoredHistory =
    | Absent                                   // no value (or the empty string)
    | Unparsable                               // `JSON.parse` throws
    | NotArray                                 // parses, but not to an array
    | Entries(entries: seq<Option<OrderRecord>>)

  /** The storage slot itself, shared by the receipt screen and the two admin tabs. */
  class HistoryStorage {
    var stored: StoredHistory

    constructor(stored: StoredHistory)
      ensures this.stored == stored
    {
      this.stored := stored;
    }
  }
}
