# Photo-booth kiosk wizard — Dafny model

This project models the logic behind a touch-screen photo-booth kiosk. A customer walks through a
wizard: pick backgrounds, enter contact emails, choose delivery (prints and/or email) and payment,
confirm, and receive a printed receipt carrying a sequential order number. The staff side is an
admin dialog holding the kiosk settings, the order history with its fulfilment flags, and the upload
of final photos matched to orders by the number in the file name.

The modules follow the components of the application:

- `Backgrounds`: background identifiers. Catalogue backgrounds are numbers, themed extras are
  `"custom-K"` and photos uploaded at the kiosk are `"uploaded-custom-K"`. Also the static catalogue.
- `Pricing`: `calculatePricing`, and the inline copy of it on the confirmation and receipt screens.
  Money is integer cents.
- `DeliveryPayment`, `Confirmation`, `Receipt`: the last three wizard steps. This covers the order
  record the receipt writes, the masked emails on the slip and the displayed labels.
- `OrderNumbers`: the persistent order counter with its fallbacks when storage throws.
  `OrderStore` is the stored order history. `OrderHistory` is the admin's history tab: search, flag
  toggles and background names. `FinalPhotos` is the final-photo upload tab.
- `OutputsDialog`: the per-background outputs (prints and email per background) and the dialog that
  shares prints among the selected backgrounds.
- `Session`: the wizard's steps, the app-state reducer, the effect that keeps outputs keyed by the
  selection, and the screen routing.
- `BackgroundSelection`, `UserInfo`, `Admin`: the background screen, the contact step, and the
  settings dialog.
- `Keyboard`, `KeyboardInput`: the on-screen keyboard and the text field it drives.
- `Text`, `Seqs`, `Wrappers`: the JavaScript string and array operations the components use, on
  `seq<char>` and `seq<T>`.
- `JsMath`: `Math.min` and `Math.max`, shared by the admin steppers and the outputs dialog.

State that the components change in place becomes a `class` whose methods carry `modifies`
clauses. This covers the browser storage (`OrderStore.HistoryStorage`, `OrderNumbers.OrderCounter`),
the app state (`Session.App`), the keyboard, the forms and the admin panels. Each method is
specified against a pure function over the old state, and the properties are proved about those
functions. The clock (`Date.now()`) and the answer of a `confirm()` prompt are parameters.

Where the system's written design and its code differ, the model follows the code:

- The design says every screen computes the same price. The code has three copies. The summary
  counts catalogue ids by occurrence, while the confirmation and receipt screens filter the
  catalogue. So they disagree when an id is repeated (`Pricing.RepeatedIdDisagrees`: 2.50 apart).
  They agree on every duplicate-free selection (`Pricing.InlineTotalAgrees`).
- The design says a history that cannot be parsed is left untouched. `saveOrderToHistory` replaces
  it with the new record alone (`Receipt.UnreadableHistoryReplaced`).
- The design asks for a valid name and first email before leaving the contact step. The code checks
  only the first email. The blur handler trims it but "Next" does not
  (`UserInfo.TrailingSpaceBlocksNext`).
- The design describes a flag update as setting one record's value. The code flips the flag on
  every record carrying that order number (`OrderHistory.ToggleOrders`).
- The design says distributing prints always leaves the dialog valid. In the code the result is
  valid only if every background past the n-th is emailed, which holds whenever n is at least the
  number of backgrounds (`OutputsDialog.DistributeValidity`).
- The design says a change that would exceed the print cap is rejected. The code's cap check skips
  a background that has no entry yet (`OutputsDialog.AbsentKeyEscapesCap`).
- The design says hiding the free-day option forces the free day off. Only the admin checkbox sets
  the two together (`Admin.FreeDayCheckbox`); the reducer's actions stay independent.
- The timestamp fallback for order numbers can repeat a number, as the design notes. It repeats
  every 10000 ms (`OrderNumbers.FallbackRepeats`) and can match a number the working counter hands
  out (`OrderNumbers.FallbackMeetsCounter`).

## Model

| member | source | states |
|---|---|---|
| Backgrounds.StandardIsOneToTwelve | src/components/PriceSummary.tsx:13 | an id is standard exactly when it is a number from 1 to 12 |
| Backgrounds.ExtraPrefixExcludesUploaded | src/components/PriceSummary.tsx:31-42 | a string starting "custom-" never starts "uploaded-custom-", so the negated test in the extra filter is redundant |
| Backgrounds.ClassesDisjoint | src/components/PriceSummary.tsx:27-42 | no id is in two of the standard, extra and uploaded classes |
| Backgrounds.DistinctKeysOfKnownShapes | src/components/SelectBackgroundOutputsDialog.tsx:37 | distinct ids of the shapes the kiosk creates (numbers, "custom-K", "uploaded-custom-K") have distinct `String(id)` keys |
| Backgrounds.KeyDetermines | src/components/SelectBackgroundOutputsDialog.tsx:37 | for ids of those shapes, equal keys mean equal ids |
| Backgrounds.CatalogueIds | src/components/ConfirmationScreen.tsx:51-64 | the catalogue's ids, position by position |
| Backgrounds.CatalogueIdsAreStandard | src/components/PriceSummary.tsx:13 | the catalogue lists exactly the twelve standard ids, in order |
| Backgrounds.CatalogueName | src/components/OrderHistoryTab.tsx:257-259 | the name lookup finds a name exactly when the id is in the catalogue, and the name is that entry's |
| Backgrounds.CatalogueNameAt | src/components/OrderHistoryTab.tsx:61-74 | background n (1 to 12) is named by catalogue position n - 1; any other number has no name |
| Backgrounds.CustomNameOr | src/components/ConfirmationScreen.tsx:150-153 | a themed id with a name shows that name, any other id shows itself |
| Pricing.CountOrOne | src/components/PriceSummary.tsx:23 | `parseInt(...) \|\| 1` is never 0 and keeps every non-zero number |
| Pricing.PrintCost | src/components/PriceSummary.tsx:24 | 2.00 per photo when "prints" is a delivery method, 0 otherwise |
| Pricing.AdditionalCount | src/components/PriceSummary.tsx:49-51 | the additional count is 0 exactly when at most one chargeable background is selected, and one less than the chargeable count otherwise |
| Pricing.CalculatePricing | src/components/PriceSummary.tsx:15-69 | total 0 on a free day, otherwise base + prints + uploads + additional backgrounds; 5.00 per upload, 2.50 per additional background; the class counts never exceed the selection |
| Pricing.ClassCountsPartition | src/components/PriceSummary.tsx:27-42 | standard, extra, uploaded and unclassified counts add up to the selection's length |
| Pricing.ClassCountsConcat | src/components/PriceSummary.tsx:27-42 | each class count of a concatenation is the sum of the parts' counts |
| Pricing.ExtraIdsAreFree | src/components/PriceSummary.tsx:32-54 | inserting a themed id anywhere changes only the extra count, never a charge or the total |
| Pricing.MarginalBackgroundCost | src/components/PriceSummary.tsx:45-54 | adding a standard id raises the total by 2.50 and an uploaded one by 7.50 once a chargeable background is present (0 and 5.00 before); other ids change nothing |
| Pricing.WorkedExample | src/components/PriceSummary.tsx:22-54 | base 10.00, 3 photos printed, backgrounds 1 and 2: prints 6.00, additional 2.50, total 18.50 |
| Pricing.SelectedFromCatalogue | src/components/ConfirmationScreen.tsx:142 | the catalogue filter keeps only catalogue entries whose id is selected, and no more entries than the catalogue has |
| Pricing.InlineTotal | src/components/ConfirmationScreen.tsx:137-175 | the inline copy's total is 0 on a free day |
| Pricing.InlineTotalAgrees | src/components/ConfirmationScreen.tsx:137-175 | for a duplicate-free selection the inline total equals `calculatePricing`'s total |
| Pricing.StandardCatalogueCount | src/components/ConfirmationScreen.tsx:142 | for a duplicate-free selection the catalogue filter counts as many entries as the standard filter of `calculatePricing` |
| Pricing.SelectedFromCatalogueCount | src/components/ConfirmationScreen.tsx:142 | filtering a duplicate-free catalogue counts the selected catalogue numbers |
| Pricing.SelectedFromCatalogueSameMembers | src/components/ConfirmationScreen.tsx:142 | the catalogue filter depends only on which ids are selected, not on order or repeats |
| Pricing.RepeatedIdDisagrees | src/components/ConfirmationScreen.tsx:142 | with a catalogue id selected twice, `calculatePricing` charges 2.50 more than the inline copy |
| Pricing.SelectedFromCatalogueOrdered | src/components/ConfirmationScreen.tsx:142 | the catalogue filter of an increasing catalogue lists ids in increasing order |
| Pricing.SelectedFromCatalogueComplete | src/components/ConfirmationScreen.tsx:142 | every selected catalogue number is listed by the filter |
| Pricing.CatalogueOrdered | src/components/ConfirmationScreen.tsx:51-64 | the catalogue's ids increase strictly |
| Confirmation.Named | src/components/ConfirmationScreen.tsx:150-163 | each listed background keeps its id and shows its themed name or the id itself |
| Confirmation.StandardListedInCatalogueOrder | src/components/ConfirmationScreen.tsx:142 | catalogue backgrounds are listed in increasing id order whatever order they were picked in |
| Confirmation.StandardListedWhenSelected | src/components/ConfirmationScreen.tsx:142 | catalogue background n is listed exactly when it is selected |
| Confirmation.ExtrasListedInSelectionOrder | src/components/ConfirmationScreen.tsx:145-163 | themed and uploaded lists of a concatenated selection are the lists of each part in turn, so selection order is kept |
| Confirmation.ValidEmailsInOrder | src/components/ConfirmationScreen.tsx:177 | the valid emails are filtered part by part, in order, and are exactly the non-blank entries |
| Confirmation.DeliveryText | src/components/ConfirmationScreen.tsx:334 | "Not selected" for no method, the method itself for one, otherwise the first then " & " and the rest joined |
| Confirmation.PaymentLabel | src/components/ConfirmationScreen.tsx:344-353 | "Not selected" for an empty payment type, otherwise the display name |
| Confirmation.ConfirmationTotal | src/components/ConfirmationScreen.tsx:175 | the displayed total is 0 on a free day |
| Confirmation.ConfirmationTotalIsCanonical | src/components/ConfirmationScreen.tsx:137-175 | from the screen's text inputs, the displayed total equals `calculatePricing`'s total for a duplicate-free selection |
| DeliveryPayment.PaymentDisplayName | src/components/DeliveryPaymentScreen.tsx:265-274 | "Debit Card" and "Credit Card" for the two card types, otherwise the same text with its first character upper-cased |
| DeliveryPayment.DecrementPhotos | src/components/DeliveryPaymentScreen.tsx:103-108 | one fewer, read back as such, when the count is above 1; unchanged otherwise |
| DeliveryPayment.IncrementPhotos | src/components/DeliveryPaymentScreen.tsx:110-115 | one more, read back as such, while below the print limit; unchanged otherwise |
| DeliveryPayment.SteppersKeepRange | src/components/DeliveryPaymentScreen.tsx:103-115 | from a count in 1..maxNumberOfPrints, both steppers stay in that range |
| DeliveryPayment.IncrementThenDecrement | src/components/DeliveryPaymentScreen.tsx:103-115 | a step up below the limit is undone by a step down |
| DeliveryPayment.UnreadableCountsAsOne | src/components/DeliveryPaymentScreen.tsx:103-112 | unreadable text or 0 counts as one photo: decrement does nothing, increment gives 2 |
| DeliveryPayment.ToggleKeepingOne | src/components/DeliveryPaymentScreen.tsx:117-126 | an absent method is appended; a present one is removed unless it is the only one, which stays |
| DeliveryPayment.ToggleKeepsOne | src/components/AdminDialog.tsx:205-225 | the same toggle rule, which the admin payment and delivery checkboxes also follow: the list stays duplicate-free and non-empty, and a removal takes out exactly the method |
| DeliveryPayment.ToggleRemovesInPlace | src/components/DeliveryPaymentScreen.tsx:121 | removing a method keeps the others in their order |
| DeliveryPayment.ToggleAddThenRemove | src/components/DeliveryPaymentScreen.tsx:117-126 | toggling an absent method twice restores the list |
| OrderStore.HistoryStorage.constructor | src/components/FinalReceiptScreen.tsx:105 | the `orderHistory` slot holds the given stored value |
| Receipt.OrDefault | src/components/FinalReceiptScreen.tsx:141-152 | `value \|\| fallback`: the value unless it is empty, then the fallback |
| Receipt.NewOrder | src/components/FinalReceiptScreen.tsx:139-161 | the new record carries the order number and timestamp, has all four fulfilment flags false and no final photos, and copies selection, photos and free-day flag |
| Receipt.NewOrderDefaults | src/components/FinalReceiptScreen.tsx:141-152 | empty fields get their defaults: "N/A", "Unknown", "1", "cash", "0.00", "1" |
| Receipt.StoredEmailsAreFilled | src/components/FinalReceiptScreen.tsx:135-146 | the stored emails are the non-blank entries, part by part in their order |
| Receipt.DisplayedTotalIsCanonical | src/components/FinalReceiptScreen.tsx:179-221 | the total shown on the slip equals `calculatePricing`'s total for a duplicate-free selection, and is 0 on a free day |
| Receipt.StoredTotalIsCanonical | src/components/FinalReceiptScreen.tsx:119-155 | for a duplicate-free selection the stored total text reads back as `calculatePricing`'s total; a free day stores "0.00" |
| Receipt.ZeroMoneyText | src/components/FinalReceiptScreen.tsx:155 | `(0).toFixed(2)` is "0.00" |
| Receipt.ExistingOrders | src/components/FinalReceiptScreen.tsx:105-116 | a stored array is kept as it is; anything else (missing, unparsable, not an array) starts from no orders |
| Receipt.PrependCapped | src/components/FinalReceiptScreen.tsx:163-171 | the new record is first, the old ones follow in order, and the length is min(old + 1, 500) |
| Receipt.PrependCappedKeepsNewest | src/components/FinalReceiptScreen.tsx:166-171 | only the oldest tail is dropped, exactly as many entries as exceed the cap |
| Receipt.UnreadableHistoryReplaced | src/components/FinalReceiptScreen.tsx:105-173 | an unreadable or missing history is overwritten by the new record alone |
| Receipt.SaveOrderToHistory | src/components/FinalReceiptScreen.tsx:101-177 | an empty order number writes nothing; otherwise the stored history becomes the new record in front of the old ones, capped at 500 |
| Receipt.PaymentLabel | src/components/FinalReceiptScreen.tsx:329-338 | "N/A" for an empty payment type, the card names spelled out, other methods capitalised |
| Receipt.RedactSingleAt | src/components/FinalReceiptScreen.tsx:743-750 | an address with one '@' shows the local part's first two characters (if it is longer than 2) then "***@" and the domain |
| Receipt.RedactWithoutAt | src/components/FinalReceiptScreen.tsx:745-748 | an address without '@' shows "***@undefined" after the kept characters |
| OrderNumbers.FormatOrderNumberMeaning | src/components/OrderNumberManager.tsx:52-54 | the number's decimal text, left-padded with '0' to length 4 and never truncated; for n >= 0 all digits, reading back as n |
| OrderNumbers.FormatInjective | src/components/OrderNumberManager.tsx:52-54 | different counters never format to the same order number |
| OrderNumbers.FormatStripsToDecimal | src/components/OrderNumberManager.tsx:52-54 | dropping the leading zeros of a formatted positive number gives its decimal text |
| OrderNumbers.FallbackHasFourDigits | src/components/OrderNumberManager.tsx:26-30 | the clock fallback `Date.now() % 10000` always formats to exactly four digits |
| OrderNumbers.FallbackRepeats | src/components/OrderNumberManager.tsx:26-30 | two failing calls 10000 ms apart hand out the same number |
| OrderNumbers.FallbackMeetsCounter | src/components/OrderNumberManager.tsx:12-31 | a failing call at clock 10001 hands out "0001", the first number a fresh working counter gives |
| OrderNumbers.SuccessiveAt | src/components/OrderNumberManager.tsx:12-25 | the i-th of k successive formatted counters is the format of next + i |
| OrderNumbers.IssueFromConsecutive | src/components/OrderNumberManager.tsx:12-25 | k successive calls from counter c hand out format(c+1), ..., format(c+k) |
| OrderNumbers.IssuedNumbersIncrease | src/components/OrderNumberManager.tsx:12-25 | from a stored counter c >= 0 the i-th successive number is all digits and reads as c + 1 + i: strictly increasing by one |
| OrderNumbers.OrderCounter.constructor | src/components/OrderNumberManager.tsx:6 | the counter slot, and whether reading and writing the storage each work |
| OrderNumbers.OrderCounter.GetNextOrderNumber | src/components/OrderNumberManager.tsx:12-31 | when the storage reads and writes, stores old + 1 (a missing counter counts as 0) and returns its format; when either access throws, returns the clock fallback and stores nothing |
| OrderNumbers.OrderCounter.GetCurrentOrderCounter | src/components/OrderNumberManager.tsx:37-45 | the stored value, 0 when missing or when the read throws (a failing write does not matter); nothing is written |
| OrderNumbers.OrderCounter.ResetOrderCounter | src/components/OrderNumberManager.tsx:60-66 | when the write succeeds, stores the start value, so the next number handed out is format(start + 1); otherwise nothing changes |
| OrderNumbers.OrderCounter.SetOrderCounter | src/components/OrderNumberManager.tsx:72-82 | when the write succeeds, stores max(value, 0); otherwise nothing changes |
| OrderHistory.FilteredOrders | src/components/OrderHistoryTab.tsx:159-168 | the search result is no longer than the history |
| OrderHistory.FilteredOrdersMembership | src/components/OrderHistoryTab.tsx:159-168 | a record is listed exactly when it is a non-null entry whose number, customer number, name or some email contains the lower-cased query |
| OrderHistory.FilteredOrdersConcat | src/components/OrderHistoryTab.tsx:159 | the search works entry by entry, so it keeps store order |
| OrderHistory.EmptyQueryListsAll | src/components/OrderHistoryTab.tsx:159-168 | an empty query lists every non-null order |
| OrderHistory.SearchIgnoresCase | src/components/OrderHistoryTab.tsx:161-166 | queries that differ only in letter case give the same result |
| OrderHistory.FlipFlag | src/components/OrderHistoryTab.tsx:170-232 | flips the one fulfilment flag and leaves the other three |
| OrderHistory.FlipFlagOnlyThatFlag | src/components/OrderHistoryTab.tsx:170-232 | flipping twice restores the record, and no other field changes |
| OrderHistory.ToggleOrders | src/components/OrderHistoryTab.tsx:173-177 | same length; every record with the order number has its flag flipped, every other entry (and every null) is unchanged |
| OrderHistory.ToggleTwiceRestores | src/components/OrderHistoryTab.tsx:173-177 | applying the same toggle twice restores the list |
| OrderHistory.HistoryBackgroundName | src/components/OrderHistoryTab.tsx:255-275 | catalogue numbers get their name, other numbers "Background N", named themes their name, uploads "Custom Upload K", other themes "Extra K", anything else the id |
| OrderHistory.UploadNameConsistent | src/components/OrderHistoryTab.tsx:266-267 | an upload id "uploaded-custom-K" is shown as "Custom Upload K" |
| OrderHistory.OrderHistoryView.constructor | src/components/OrderHistoryTab.tsx:138 | the view starts with no orders |
| OrderHistory.OrderHistoryView.LoadOrders | src/components/OrderHistoryTab.tsx:138-157 | a stored array is shown as it is; unparsable or non-array data shows nothing; nothing stored leaves the view; storage is never written |
| OrderHistory.OrderHistoryView.MarkFlag | src/components/OrderHistoryTab.tsx:170-232 | an empty order number changes nothing; otherwise the view is the toggled list and storage holds it |
| FinalPhotos.TagThenDigits | src/components/UploadFinalPhotoTab.tsx:28-29 | a tag-then-digits match captures four digits that occur contiguously in the name |
| FinalPhotos.DigitsThenTag | src/components/UploadFinalPhotoTab.tsx:30 | a digits-then-tag match captures the four digits at the match position |
| FinalPhotos.MatchAt | src/components/UploadFinalPhotoTab.tsx:27-31 | any pattern's capture is four contiguous digits of the name; the bare pattern matches at p exactly when four digits start there |
| FinalPhotos.Search | src/components/UploadFinalPhotoTab.tsx:35 | whatever the leftmost search returns is four contiguous digits of the name |
| FinalPhotos.SearchAnyDigits | src/components/UploadFinalPhotoTab.tsx:31 | the bare four-digit pattern finds something from p on exactly when a digit run starts at or after p |
| FinalPhotos.FirstMatch | src/components/UploadFinalPhotoTab.tsx:34-39 | the first pattern to match decides, and its capture is four contiguous digits of the name |
| FinalPhotos.ExtractOrderNumber | src/components/UploadFinalPhotoTab.tsx:24-42 | no number exactly when the name holds no four digits in a row; otherwise four ASCII digits taken contiguously from the name |
| FinalPhotos.ExtractionFindsRuns | src/components/UploadFinalPhotoTab.tsx:26-41 | the pattern list fails exactly on names without a four-digit run, because it ends with the bare pattern |
| FinalPhotos.PlainNameExample | src/components/UploadFinalPhotoTab.tsx:27 | "0001.jpg" yields "0001" |
| FinalPhotos.TaggedNameExample | src/components/UploadFinalPhotoTab.tsx:26-39 | "IMG1234_order-0042.png" yields "0042": the order tag is tried before the bare pattern and is case-insensitive with an optional '_' or '-' |
| FinalPhotos.ExampleNotAnchored | src/components/UploadFinalPhotoTab.tsx:27 | the anchored pattern does not match "IMG1234_order-0042.png" |
| FinalPhotos.ExampleOrderTag | src/components/UploadFinalPhotoTab.tsx:28 | the order tag matches at position 8 of that name, capturing "0042" |
| FinalPhotos.ExampleNoEarlierTag | src/components/UploadFinalPhotoTab.tsx:28 | the order tag matches nowhere before position 8 of that name |
| FinalPhotos.SearchNothing | src/components/UploadFinalPhotoTab.tsx:27 | the anchored pattern never matches past the start of the name |
| FinalPhotos.SearchSkips | src/components/UploadFinalPhotoTab.tsx:35 | the leftmost search skips positions where nothing matches |
| FinalPhotos.FindIn | src/components/UploadFinalPhotoTab.tsx:50 | a found record carries the requested number and is in the history |
| FinalPhotos.FindMatchingOrder | src/components/UploadFinalPhotoTab.tsx:44-55 | missing or unparsable storage finds nothing; a found record carries the requested number |
| FinalPhotos.FindInFirst | src/components/UploadFinalPhotoTab.tsx:50 | without null entries a record is found exactly when one has the number, and it is the first such record |
| FinalPhotos.AcceptanceIgnoresCase | src/components/UploadFinalPhotoTab.tsx:79-82 | names that differ only in letter case are accepted alike |
| FinalPhotos.UpperCaseNameAccepted | src/components/UploadFinalPhotoTab.tsx:79-82 | "PHOTO.JPG" is accepted whatever MIME type the browser reports |
| FinalPhotos.TextFileRefused | src/components/UploadFinalPhotoTab.tsx:66-82 | a "text/plain" file whose name ends in 't' is refused, since no listed extension ends in 't' |
| FinalPhotos.AttachEntry | src/components/UploadFinalPhotoTab.tsx:176-188 | a null stays null; a record with the number and without the preview gets it appended; anything else is unchanged |
| FinalPhotos.ApplyFile | src/components/UploadFinalPhotoTab.tsx:176-189 | attaching one file keeps the history's length |
| FinalPhotos.ApplyFiles | src/components/UploadFinalPhotoTab.tsx:174-191 | attaching all the files keeps the history's length |
| FinalPhotos.ApplyFileCounts | src/components/UploadFinalPhotoTab.tsx:178-186 | one file adds exactly as many photos as it counts appends |
| FinalPhotos.UploadCountIsPhotosAdded | src/components/UploadFinalPhotoTab.tsx:172-191 | `uploadCount` equals the number of photos the upload adds to the history |
| FinalPhotos.OnlyPhotosGrewTrans | src/components/UploadFinalPhotoTab.tsx:182-185 | "only the final photos grew" composes across files |
| FinalPhotos.ApplyFilesChangesOnlyPhotos | src/components/UploadFinalPhotoTab.tsx:174-191 | each entry changes only by new final photos not already present, and an order no eligible file names is unchanged |
| FinalPhotos.NullsStay | src/components/UploadFinalPhotoTab.tsx:176-189 | the upload neither creates nor fills null entries |
| FinalPhotos.AttachPreview | src/components/UploadFinalPhotoTab.tsx:176-189 | the walk fails exactly on a null entry; otherwise it maps every entry through AttachEntry and counts the appends |
| FinalPhotos.AttachFiles | src/components/UploadFinalPhotoTab.tsx:172-191 | the loop fails exactly when an eligible file meets a null entry; otherwise it yields ApplyFiles and UploadCount |
| FinalPhotos.FilesStep | src/components/UploadFinalPhotoTab.tsx:174-191 | the files up to the k-th act as those before it followed by the k-th |
| FinalPhotos.EligibleIn | src/components/UploadFinalPhotoTab.tsx:175 | one matched, numbered file makes the upload attach something |
| FinalPhotos.FinalPhotoUploader.constructor | src/components/UploadFinalPhotoTab.tsx:20-21 | no files waiting and no status |
| FinalPhotos.FinalPhotoUploader.HandleUploadToOrders | src/components/UploadFinalPhotoTab.tsx:160-215 | no history: "No orders found" and no write; a parse failure or a throw: "Failed to upload" and no write; otherwise storage holds ApplyFiles and the message reports UploadCount |
| FinalPhotos.FinalPhotoUploader.RemoveFile | src/components/UploadFinalPhotoTab.tsx:217-220 | the file at that position is dropped, the others keep their order, and the status is cleared |
| FinalPhotos.FinalPhotoUploader.ClearAll | src/components/UploadFinalPhotoTab.tsx:222-225 | no files and no status |
| OutputsDialog.Get | src/components/SelectBackgroundOutputsDialog.tsx:176 | a found output is stored under that key |
| OutputsDialog.GetNone | src/components/SelectBackgroundOutputsDialog.tsx:176 | a lookup fails exactly when no entry carries the key |
| OutputsDialog.GetAt | src/components/SelectBackgroundOutputsDialog.tsx:275 | in a duplicate-free object, looking up the key at position i finds the output at position i |
| OutputsDialog.Prepend | src/components/SelectBackgroundOutputsDialog.tsx:192-198 | putting an entry in front of an object that lacks its key adds that key and changes no other lookup |
| OutputsDialog.Set | src/components/SelectBackgroundOutputsDialog.tsx:192-198 | after `{...o, [key]: v}` the key holds v and no other lookup changes; an existing key keeps its entry, a missing one gains exactly one |
| OutputsDialog.Replace | src/components/SelectBackgroundOutputsDialog.tsx:192-198 | overwriting a present key keeps the length and every other lookup |
| OutputsDialog.Append | src/components/SelectBackgroundOutputsDialog.tsx:192-198 | a key without an entry gains one holding v, and no other lookup changes |
| OutputsDialog.Delete | src/components/SelectBackgroundOutputsDialog.tsx:192-198 | the key is gone and every other lookup is unchanged |
| OutputsDialog.SetSame | src/components/SelectBackgroundOutputsDialog.tsx:192-198 | setting a key to the value it already has changes nothing |
| OutputsDialog.SetSet | src/components/SelectBackgroundOutputsDialog.tsx:192-198 | a second assignment to a key overrides the first |
| OutputsDialog.TotalAfterSet | src/components/SelectBackgroundOutputsDialog.tsx:79 | setting a key changes the print total by the new prints minus the old ones |
| OutputsDialog.TotalAfterDelete | src/components/SelectBackgroundOutputsDialog.tsx:79 | deleting a key lowers the print total by its prints |
| OutputsDialog.SumPrintsSameLookups | src/components/SelectBackgroundOutputsDialog.tsx:79 | a sum of prints over keys depends only on those keys' lookups |
| OutputsDialog.TotalByKeys | src/components/SelectBackgroundOutputsDialog.tsx:79 | the total over the object's values equals the sum over any duplicate-free list of exactly its keys |
| OutputsDialog.SelectedKeys | src/components/SelectBackgroundOutputsDialog.tsx:219 | one key per selected background, in selection order, each its string form |
| OutputsDialog.SelectedKeysDistinct | src/components/SelectBackgroundOutputsDialog.tsx:219 | distinct selected backgrounds have distinct keys |
| OutputsDialog.TotalReplacingPresent | src/components/SelectBackgroundOutputsDialog.tsx:180-185 | the would-be total replaces the key's prints with q when the key is present and is the plain total when it is absent |
| OutputsDialog.QuantityChange | src/components/SelectBackgroundOutputsDialog.tsx:173-200 | other keys are unchanged; for a present key, the new quantity max(0, old + delta) is refused when the would-be total exceeds numberOfPrints, otherwise stored with the key's email flag; for a key without an entry, only the old total is checked against numberOfPrints, and if it passes the key gets max(0, delta) prints and no email |
| OutputsDialog.QuantityChangeKeepsCap | src/components/SelectBackgroundOutputsDialog.tsx:173-200 | a change of a present key is refused or leaves the total within numberOfPrints; a total within the cap stays within it |
| OutputsDialog.AbsentKeyEscapesCap | src/components/SelectBackgroundOutputsDialog.tsx:180-190 | a key with no entry is not counted by the check: with one print allowed and one assigned, a first print for a new key goes through, for a total of 2 |
| OutputsDialog.ToggleEmail | src/components/SelectBackgroundOutputsDialog.tsx:202-210 | the key's email flag flips, its prints stay, and other keys are unchanged |
| OutputsDialog.ToggleEmailTwice | src/components/SelectBackgroundOutputsDialog.tsx:202-210 | toggling a present key twice restores the object |
| OutputsDialog.Patch | src/components/SelectBackgroundOutputsDialog.tsx:220-224 | the key holds the update applied to its output (or to the blank output) and other keys are unchanged |
| OutputsDialog.PatchAllSnoc | src/components/SelectBackgroundOutputsDialog.tsx:218-225 | patching the first i + 1 keys is patching the first i and then the i-th |
| OutputsDialog.PatchAllOther | src/components/SelectBackgroundOutputsDialog.tsx:218-225 | keys outside the list are untouched |
| OutputsDialog.PatchAllAt | src/components/SelectBackgroundOutputsDialog.tsx:218-225 | with distinct keys, the i-th key holds the i-th update applied to its old output |
| OutputsDialog.PatchAllLookup | src/components/SelectBackgroundOutputsDialog.tsx:218-225 | both lookups together, for any key |
| OutputsDialog.JsRemainder | src/components/SelectBackgroundOutputsDialog.tsx:216 | JavaScript's `%`: for n >= 0 the Euclidean remainder; for n < 0 a remainder in (-c, 0] |
| OutputsDialog.Shares | src/components/SelectBackgroundOutputsDialog.tsx:215-224 | one print update per background, the i-th being floor(n / c) plus one when i < n % c |
| OutputsDialog.SumSharesUpTo | src/components/SelectBackgroundOutputsDialog.tsx:215-224 | the first k shares sum to k * (n / c) + min(k, n % c) |
| OutputsDialog.SharesAddUp | src/components/SelectBackgroundOutputsDialog.tsx:215-224 | for n >= 0 the shares sum to exactly n |
| OutputsDialog.SharesBalanced | src/components/SelectBackgroundOutputsDialog.tsx:224 | shares never increase along the selection and differ by at most one |
| OutputsDialog.ShareZero | src/components/SelectBackgroundOutputsDialog.tsx:224 | for n >= 0 a share is never negative, and is zero exactly for the backgrounds from position n on |
| OutputsDialog.QuotientZero | src/components/SelectBackgroundOutputsDialog.tsx:215-216 | fewer prints than backgrounds give quotient 0 and remainder n |
| OutputsDialog.DistributePrintsEvenly | src/components/SelectBackgroundOutputsDialog.tsx:212-228 | the loop's result is every selected key patched with its share, in selection order |
| OutputsDialog.Uniform | src/components/SelectBackgroundOutputsDialog.tsx:230-264 | c copies of the same update |
| OutputsDialog.AssignToAll | src/components/SelectBackgroundOutputsDialog.tsx:230-264 | the loop's result is every selected key patched with the same update |
| OutputsDialog.SelectAllEmails | src/components/SelectBackgroundOutputsDialog.tsx:230-240 | every selected key gets email on, created blank when missing |
| OutputsDialog.DeselectAllEmails | src/components/SelectBackgroundOutputsDialog.tsx:254-264 | every selected key gets email off, created blank when missing |
| OutputsDialog.DeselectAllPrints | src/components/SelectBackgroundOutputsDialog.tsx:242-252 | every selected key gets 0 prints, created blank when missing |
| OutputsDialog.AssignToAllEffect | src/components/SelectBackgroundOutputsDialog.tsx:230-264 | with distinct selected keys, each selected key holds the update applied to its old output and every other key is unchanged |
| OutputsDialog.DistributedShare | src/components/SelectBackgroundOutputsDialog.tsx:212-228 | after distributing, the i-th selected background holds its share and keeps its email flag |
| OutputsDialog.DistributeKeepsOthers | src/components/SelectBackgroundOutputsDialog.tsx:212-228 | distributing touches only the selected backgrounds' entries |
| OutputsDialog.SumPrintsOfShares | src/components/SelectBackgroundOutputsDialog.tsx:212-228 | the prints held by the last k selected backgrounds add up to the last k shares |
| OutputsDialog.DistributeTotal | src/components/SelectBackgroundOutputsDialog.tsx:212-228 | when the object's keys are exactly the selected ones, distributing n >= 0 prints assigns all n |
| OutputsDialog.DistributeOutputs | src/components/SelectBackgroundOutputsDialog.tsx:212-228 | after distributing, every selected background has an output exactly when each one past the n-th is emailed |
| OutputsDialog.DistributeValidity | src/components/SelectBackgroundOutputsDialog.tsx:271-283 | the dialog is valid after distributing exactly when each background past the n-th is emailed; with at least as many prints as backgrounds it is always valid |
| OutputsDialog.DialogBackgroundName | src/components/SelectBackgroundOutputsDialog.tsx:36-60 | a non-empty reported name wins; otherwise numbers give "Background N", extras "Extra Background K", uploads "Custom Upload K", and other strings "Background id" |
| Session.GetStepNumber | src/App.tsx:32-47 | the progress-bar rank is between 1 and 5, and only the home and receipt screens have none |
| Session.StepForNumber | src/App.tsx:316-335 | a click target exists exactly for ranks 1 to 5 |
| Session.StepNumbersRoundTrip | src/App.tsx:32-47 | ranks and click targets are inverse to each other in both directions |
| Session.LastEight | src/App.tsx:154 | `slice(-8)` gives the last min(8, length) characters, a suffix of the text |
| Session.CustomerNumberAt | src/App.tsx:154 | a customer number is "CN-" followed by one to eight characters |
| Session.Store | src/App.tsx:166-213 | the setter actions never move the wizard; only SET_CUSTOMER_NUMBER and SET_ORDER_NUMBER change the numbers |
| Session.SetStepVisits | src/App.tsx:143-165 | SET_STEP lands on its step and adds the step's rank, if it has one, so the visited ranks only grow |
| Session.NumbersAfter | src/App.tsx:143-233 | an order start (SET_STEP to delivery with no customer number) sets a fresh customer number and the counter's order number; the setters store their payload; both resets clear them; anything else keeps them |
| Session.NumbersChangeOnlyAtStart | src/App.tsx:150-156 | the numbers change only at an order start or through the resets and number setters, and a started order always has a customer number |
| Session.OneOrderPerSession | src/App.tsx:153-155 | between two resets the order counter is consulted at most once, and never once a customer number exists |
| Session.ResetSessionKeepsSettings | src/App.tsx:214-233 | RESET_SESSION keeps the administrator's settings and restores every customer field, so it equals RESET_ALL exactly when the settings are the initial ones |
| Session.OnlyStepsAndResetsMove | src/App.tsx:142-236 | no action other than SET_STEP and the resets changes the step or the visited ranks |
| Session.StepClick | src/App.tsx:310-337 | an unvisited rank dispatches nothing; otherwise the dispatched step has that rank |
| Session.StepClickLands | src/App.tsx:310-337 | a click on a visited rank lands on the step of that rank and leaves the visited ranks unchanged |
| Session.Forward | src/App.tsx:407-806 | every screen except the receipt has a forward step |
| Session.Backward | src/App.tsx:461-812 | every screen except home and the receipt has a back step |
| Session.ForwardThenBack | src/App.tsx:455-812 | going back after going forward returns to the same screen, and forward raises the rank by one |
| Session.CancelAction | src/App.tsx:464-813 | the confirmation screen's quit dispatches RESET_ALL; every other cancel dispatches RESET_SESSION |
| Session.CancelOnConfirmationDropsSettings | src/App.tsx:704 | quitting from the confirmation screen returns to the initial state, settings included; other cancels keep the settings |
| Session.DefaultOutput | src/App.tsx:284-292 | a newly selected background starts with no prints and with email exactly when email delivery is chosen |
| Session.EntryKeys | src/App.tsx:298 | `Object.keys`: one key per entry, in order |
| Session.HasIffEntryKey | src/App.tsx:298 | a key has an entry exactly when it is among the object's keys |
| Session.SyncedIsInSync | src/App.tsx:271-308 | after the effect has run, a second run has nothing to do |
| Session.App.constructor | src/App.tsx:239-246 | the initial state, with the outputs dialog closed |
| Session.App.Dispatch | src/App.tsx:138-165 | the new state is the reducer's result; the counter is read and bumped only when the action starts an order |
| Session.App.HandleStepClick | src/App.tsx:310-337 | an unvisited rank changes nothing; a visited rank moves to its step and keeps the visited ranks |
| Session.App.BackgroundNext | src/App.tsx:529-543 | with both delivery methods and a selection the outputs dialog opens and the state is unchanged; otherwise the wizard moves to the user's details |
| Session.App.ConfirmOutputs | src/App.tsx:901-909 | the confirmed outputs are stored, the dialog closes and the wizard moves to the user's details |
| Session.App.SyncOutputs | src/App.tsx:271-308 | only the outputs change; afterwards every selected key has an entry (the default for new ones), unselected keys have none, and an update is dispatched exactly when the outputs were out of step |
| Session.AddedStep | src/App.tsx:281-295 | one iteration of the first loop extends what it has done, and its flag, by one key |
| Session.AddMissing | src/App.tsx:278-295 | every selected key without an entry gets the default output, and the flag says whether one was missing |
| Session.DeletedStep | src/App.tsx:298-303 | one iteration of the second loop extends what it has done, and its flag, by one key |
| Session.DeleteUnselected | src/App.tsx:298-303 | every entry whose key is not selected is deleted, and the flag says whether one was |
| Session.SyncFlag | src/App.tsx:279-305 | the effect's flag is raised exactly when the outputs were out of step with the selection |
| BackgroundSelection.Uploads | src/components/BackgroundSelectionScreen.tsx:168 | every id kept is an uploaded one |
| BackgroundSelection.WithoutUploads | src/components/BackgroundSelectionScreen.tsx:172-174 | no uploaded id is kept |
| BackgroundSelection.Toggle | src/components/BackgroundSelectionScreen.tsx:158-183 | the tapped id ends up selected exactly when it was unselected and the selection was below the maximum; no other id is added, and the selection grows by at most one and only when below the maximum |
| BackgroundSelection.ToggleOff | src/components/BackgroundSelectionScreen.tsx:159-160 | tapping a selected id removes exactly that id and keeps the order of the rest |
| BackgroundSelection.ToggleWhenFull | src/components/BackgroundSelectionScreen.tsx:163-165 | tapping an unselected id on a full selection changes nothing |
| BackgroundSelection.ToggleOnAppends | src/components/BackgroundSelectionScreen.tsx:178-181 | tapping an unselected catalogue or themed id appends it at the end |
| BackgroundSelection.ToggleOnUpload | src/components/BackgroundSelectionScreen.tsx:167-177 | tapping an unselected upload evicts every other upload, keeps the other ids in order and appends it, leaving it the only upload |
| BackgroundSelection.ToggleTwice | src/components/BackgroundSelectionScreen.tsx:158-183 | tapping an id that a tap just appended removes it again |
| BackgroundSelection.UploadsOfRemove | src/components/BackgroundSelectionScreen.tsx:160 | removing an id cannot add uploads |
| BackgroundSelection.UploadsOfAppend | src/components/BackgroundSelectionScreen.tsx:180 | appending a catalogue or themed id adds no upload |
| BackgroundSelection.AppendAfterDrop | src/components/BackgroundSelectionScreen.tsx:172-177 | dropping the uploads and appending a fresh upload keeps the list duplicate-free with that upload its only one |
| BackgroundSelection.ToggleKeepsWellFormed | src/components/BackgroundSelectionScreen.tsx:158-183 | a tap keeps the selection duplicate-free, with at most one upload and within the maximum |
| BackgroundSelection.NextAfterToggle | src/components/BackgroundSelectionScreen.tsx:473 | after a tap, Next is disabled exactly when the tap deselected the only selected id (or nothing may be selected at all) |
| BackgroundSelection.AvailableBackgrounds | src/components/BackgroundSelectionScreen.tsx:156 | never more entries than the catalogue |
| BackgroundSelection.AvailableBackgroundsMembers | src/components/BackgroundSelectionScreen.tsx:156 | a catalogue entry is offered exactly when its id is enabled |
| BackgroundSelection.UploadId | src/components/BackgroundSelectionScreen.tsx:201 | an upload's id is classified as uploaded |
| BackgroundSelection.UploadIdInjective | src/components/BackgroundSelectionScreen.tsx:197-201 | distinct counters give distinct upload ids |
| BackgroundSelection.AfterUpload | src/components/BackgroundSelectionScreen.tsx:209-221 | apart from the new id, only previously selected non-upload ids remain |
| BackgroundSelection.AfterUploadShape | src/components/BackgroundSelectionScreen.tsx:195-222 | an upload keeps the selection well formed, selects the new id exactly when fewer than the maximum non-upload ids remain, and keeps every non-upload id's membership |
| BackgroundSelection.BackgroundScreen.constructor | src/components/BackgroundSelectionScreen.tsx:105-110 | no extras, no uploads and a zero upload counter |
| BackgroundSelection.BackgroundScreen.ToggleBackground | src/components/BackgroundSelectionScreen.tsx:158-183 | the selection becomes Toggle of the old one |
| BackgroundSelection.BackgroundScreen.SelectExtraBackground | src/components/BackgroundSelectionScreen.tsx:185-193 | the extra is offered once (appended only if its id is new) and then toggled |
| BackgroundSelection.BackgroundScreen.UploadComplete | src/components/BackgroundSelectionScreen.tsx:195-222 | the counter goes up by one, a new upload with a fresh id "uploaded-custom-N" and name "Custom Upload N" is offered, and the selection is AfterUpload of the old one |
| UserInfo.RegexMatchIsWellShaped | src/components/UserInfoScreen.tsx:100 | a string the pattern `^[^\s@]+@[^\s@]+\.[^\s@]+$` matches (split at its '@' and a later '.') is a well-shaped address |
| UserInfo.WellShapedMatchesRegex | src/components/UserInfoScreen.tsx:100 | a well-shaped address matches the pattern |
| UserInfo.EmailRegexMeans | src/components/UserInfoScreen.tsx:100 | the pattern accepts exactly the well-shaped addresses: no whitespace, one '@' with text before it, and a '.' after the '@' with text on both sides |
| UserInfo.ValidateEmail | src/components/UserInfoScreen.tsx:98-102 | true exactly for a blank entry or a well-shaped address |
| UserInfo.WellShapedNotBlank | src/components/UserInfoScreen.tsx:98-102 | a well-shaped address is never blank |
| UserInfo.TrimmedNotBlank | src/components/UserInfoScreen.tsx:115 | a non-empty trimmed value is not blank |
| UserInfo.FirstEmail | src/components/UserInfoScreen.tsx:133 | the first entry, or "" when the list is empty |
| UserInfo.IsEmail1Valid | src/components/UserInfoScreen.tsx:133 | Next is enabled exactly when there is a first entry and it is a well-shaped address, untrimmed |
| UserInfo.BlurMessage | src/components/UserInfoScreen.tsx:114-131 | a message is shown exactly for a blank first field or a non-blank value whose trimmed form is not well shaped; it is "required" for the blank one and "invalid" otherwise |
| UserInfo.BlurErrors | src/components/UserInfoScreen.tsx:114-131 | other fields' errors are unchanged; the field has an error exactly when BlurMessage gives one, and it is that message |
| UserInfo.BlurChecks | src/components/UserInfoScreen.tsx:115-122 | the two checks on the trimmed value, restated on the untrimmed one |
| UserInfo.BlurAgreesWithNext | src/components/UserInfoScreen.tsx:114-133 | for a first address without surrounding whitespace, leaving the field shows no error exactly when Next is enabled |
| UserInfo.TrailingSpaceBlocksNext | src/components/UserInfoScreen.tsx:114-133 | "a@b.c " passes the blur check (it trims) but keeps Next disabled (it does not) |
| UserInfo.TrailingSpaceNotWellShaped | src/components/UserInfoScreen.tsx:100 | "a@b.c " does not match the pattern |
| UserInfo.TrimTrailingSpace | src/components/UserInfoScreen.tsx:115 | trimming "a@b.c " gives "a@b.c" |
| UserInfo.ShortAddressWellShaped | src/components/UserInfoScreen.tsx:100 | "a@b.c" matches the pattern and is not blank |
| UserInfo.DecrementPeople | src/components/UserInfoScreen.tsx:135-140 | reading the count as `parseInt(...) \|\| 1`, the new count reads as one less while above 1; otherwise the text is unchanged |
| UserInfo.IncrementPeople | src/components/UserInfoScreen.tsx:142-149 | one more below 9, "10+" at 9, unchanged above 9 |
| UserInfo.TenPlusReadsTen | src/components/UserInfoScreen.tsx:136-143 | `parseInt("10+")` is 10 |
| UserInfo.PeopleStepsFromNumber | src/components/UserInfoScreen.tsx:135-149 | from n in 1..9 the steppers give n - 1 (stopping at 1) and n + 1 (with "10+" after 9) |
| UserInfo.PeopleStepsFromTenPlus | src/components/UserInfoScreen.tsx:135-149 | from "10+" the steppers give "9" and "10+" |
| UserInfo.PeopleChoicesClosed | src/components/UserInfoScreen.tsx:135-151 | the steppers never leave "1".."9" and "10+", and each of these is displayed as itself |
| UserInfo.ShiftDownAt | src/components/UserInfoScreen.tsx:167-179 | after removing field `index` its own error is gone, errors below it stay, errors above it move down by one |
| UserInfo.ShiftedPartStep | src/components/UserInfoScreen.tsx:172-179 | copying one more key extends the shifted map by that key |
| UserInfo.ShiftedPartWithout | src/components/UserInfoScreen.tsx:168-169 | deleting the removed field's own error first does not change the shifted map |
| UserInfo.ShiftErrors | src/components/UserInfoScreen.tsx:167-179 | the loop's result is ShiftDown of the errors |
| UserInfo.UserInfoForm.constructor | src/components/UserInfoScreen.tsx:88-89 | no errors and one email field |
| UserInfo.UserInfoForm.EmailChange | src/components/UserInfoScreen.tsx:104-112 | the list is padded with "" up to `index`, the entry at `index` is the value, and every other entry is unchanged |
| UserInfo.UserInfoForm.EmailBlur | src/components/UserInfoScreen.tsx:114-131 | the errors become BlurErrors of the old errors |
| UserInfo.UserInfoForm.AddEmailField | src/components/UserInfoScreen.tsx:153-157 | one more field while below the maximum, else unchanged |
| UserInfo.UserInfoForm.RemoveEmailField | src/components/UserInfoScreen.tsx:159-183 | field 0 is never removed; any other is cut out of the list, the errors are shifted down, and the field count drops by one |
| Admin.Insert | src/components/AdminDialog.tsx:234 | inserting into an ascending list keeps it ascending and adds exactly that number |
| Admin.InsertBehindHead | src/components/AdminDialog.tsx:234 | putting the head back before a tail that got the new number keeps the list ascending and adds exactly that number |
| Admin.SortAscending | src/components/AdminDialog.tsx:234 | `sort((a, b) => a - b)` gives an ascending permutation of the list |
| Admin.ToggleEnabledBackground | src/components/AdminDialog.tsx:227-236 | enabling a new id gives an ascending list holding the old ids plus that one |
| Admin.RemoveAscending | src/components/AdminDialog.tsx:231 | filtering out an id keeps an ascending list ascending |
| Admin.RepeatCountsTwice | src/components/AdminDialog.tsx:234 | a value held at two positions is counted at least twice |
| Admin.CountsOnceNoDuplicates | src/components/AdminDialog.tsx:234 | a list counting every value at most once is duplicate-free |
| Admin.ToggleEnabledBackgroundMeans | src/components/AdminDialog.tsx:227-236 | on a duplicate-free list the result is duplicate-free and never empty, holds the id exactly when it was absent or was the only one left, keeps every other id, and stays ascending |
| Admin.RemoveAscendingIf | src/components/AdminDialog.tsx:231 | the same, for any list that is ascending |
| Admin.ToggleAllBackgrounds | src/components/AdminDialog.tsx:238-246 | twelve enabled ids become [1]; any other count becomes all twelve |
| Admin.DistinctMembers | src/components/AdminDialog.tsx:239 | a duplicate-free list has as many distinct members as elements |
| Admin.SubsetNoLarger | src/components/AdminDialog.tsx:239 | a subset is no larger than its superset |
| Admin.AllEnabledIffTwelve | src/components/AdminDialog.tsx:239 | for a duplicate-free list of catalogue ids, length twelve means every catalogue background is enabled |
| Admin.ToggleAllBackgroundsShape | src/components/AdminDialog.tsx:238-246 | after the switch the list is ascending, duplicate-free, non-empty and holds only catalogue ids |
| Admin.StandardIdsCount | src/components/AdminDialog.tsx:65-78 | the catalogue ids are 1 to 12 in order |
| Admin.FreeDayCheckbox | src/components/AdminDialog.tsx:318-330 | the checkbox sets the free-day option and the free day to the same value, so a free day is never on with its option hidden |
| Admin.SteppedInRange | src/components/AdminDialog.tsx:111-113 | one step from a value in range stays in range and moves by at most `step` in its direction |
| Admin.StepUndone | src/components/AdminDialog.tsx:111-113 | a step not cut off by a bound is undone by a step the other way |
| Admin.StepsUpSaturate | src/components/AdminDialog.tsx:111-127 | holding "up" for k steps from v reaches min(max, v + k * step) |
| Admin.StepsDownSaturate | src/components/AdminDialog.tsx:111-127 | holding "down" for k steps from v reaches max(min, v - k * step) |
| Admin.HoldIncrement.constructor | src/components/AdminDialog.tsx:80-89 | the bounds and step are kept; no direction and a zero value |
| Admin.HoldIncrement.Start | src/components/AdminDialog.tsx:102-115 | the press remembers its direction and immediately sets the value one clamped step on |
| Admin.HoldIncrement.Repeat | src/components/AdminDialog.tsx:119-126 | a tick before any press does nothing; otherwise it steps again from the last value in the remembered direction |
| JsMath.Min | src/components/AdminDialog.tsx:112 | `Math.min`: the smaller of the two |
| JsMath.Max | src/components/SelectBackgroundOutputsDialog.tsx:177 | `Math.max`: the larger of the two (also the admin stepper's lower clamp) |
| Admin.PreviewIsNextNumber | src/components/AdminDialog.tsx:368 | when the storage reads and writes, "Next order will be #..." shows the number the next order actually receives |
| Admin.PreviewMisleadsWhenWritesFail | src/components/AdminDialog.tsx:368 | when reads work but writes throw, the preview shows the stored count plus one ("0042" for 41) while the next order gets the clock fallback |
| Admin.OrderCounterPanel.constructor | src/components/AdminDialog.tsx:164 | the shown count starts at 0 |
| Admin.OrderCounterPanel.Open | src/components/AdminDialog.tsx:166-171 | opening shows the stored counter; 0 when it is missing or the read throws, whether or not writes work |
| Admin.OrderCounterPanel.Reset | src/components/AdminDialog.tsx:371-378 | once confirmed, the shown count is 0, the stored counter is 0 when the write succeeds, and with a working storage the preview is then the next number handed out; declined, nothing changes |
| Keyboard.TypedKey | src/components/VirtualKeyboard.tsx:37-40 | the key keeps its length; it is upper-cased exactly when shift or caps lock is on |
| Keyboard.AfterKey | src/components/VirtualKeyboard.tsx:42-45 | caps lock is unchanged; shift stays on only when caps lock is on too |
| Keyboard.AfterShift | src/components/VirtualKeyboard.tsx:48-50 | shift flips and caps lock is unchanged |
| Keyboard.AfterCapsLock | src/components/VirtualKeyboard.tsx:52-55 | caps lock flips and shift goes off |
| Keyboard.DigitsIgnoreCase | src/components/VirtualKeyboard.tsx:29-39 | a digit key types itself whatever the modifiers |
| Keyboard.CapsLockTwice | src/components/VirtualKeyboard.tsx:52-55 | caps lock pressed twice restores it, with shift off |
| Keyboard.UpperConcat | src/components/VirtualKeyboard.tsx:39 | upper-casing distributes over concatenation |
| Keyboard.CapsLockTypesUpper | src/components/VirtualKeyboard.tsx:37-46 | with caps lock on, any run of keys types their upper-case concatenation and leaves the modifiers as they were |
| Keyboard.PlainTyping | src/components/VirtualKeyboard.tsx:37-46 | with neither modifier, any run of keys types exactly their concatenation |
| Keyboard.ShiftIsOneShot | src/components/VirtualKeyboard.tsx:37-46 | shift without caps lock raises only the next key; the rest are typed as they are and both modifiers end off |
| Keyboard.EnterButton | src/components/VirtualKeyboard.tsx:177-184 | the Enter button calls `onEnter` exactly when the field supplies one, and closes the keyboard otherwise |
| Keyboard.VirtualKeyboard.constructor | src/components/VirtualKeyboard.tsx:25-26 | shift and caps lock both start off |
| Keyboard.VirtualKeyboard.HandleKeyPress | src/components/VirtualKeyboard.tsx:37-46 | the key sent is TypedKey of the old modifiers and the new modifiers are AfterKey of them |
| Keyboard.VirtualKeyboard.HandleShift | src/components/VirtualKeyboard.tsx:48-50 | the modifiers become AfterShift of the old ones |
| Keyboard.VirtualKeyboard.HandleCapsLock | src/components/VirtualKeyboard.tsx:52-55 | the modifiers become AfterCapsLock of the old ones |
| Keyboard.VirtualKeyboard.PressVerbatim | src/components/VirtualKeyboard.tsx:160-176 | special keys and the space bar send their text unchanged and leave the modifiers alone |
| KeyboardInput.KeyPress | src/components/KeyboardInput.tsx:36-40 | the reported value is the old value with the key appended |
| KeyboardInput.Backspace | src/components/KeyboardInput.tsx:42-45 | the reported value is the old one without its last character, or "" when it was empty |
| KeyboardInput.BackspaceUndoesKey | src/components/KeyboardInput.tsx:36-45 | pressing backspace as many times as the key was long restores the value |
| KeyboardInput.BackspaceTimesShift | src/components/KeyboardInput.tsx:42-45 | the first backspace can be peeled off a run of backspaces |
| KeyboardInput.Close | src/components/KeyboardInput.tsx:47-58 | `onCloseKeyboard` is called exactly when supplied, then `onBlur` exactly when supplied and the input is mounted; nothing else is called |
| KeyboardInput.KeyDown | src/components/KeyboardInput.tsx:60-66 | only Enter calls anything: `onEnter` and `onCloseKeyboard`, each exactly when supplied, and never `onBlur` |
| KeyboardInput.VirtualEnter | src/components/KeyboardInput.tsx:83-92 | the on-screen Enter calls `onEnter` when supplied, and otherwise closes the keyboard as Close does |
| KeyboardInput.EnterKeysDiffer | src/components/KeyboardInput.tsx:60-92 | with both callbacks supplied, the on-screen Enter submits without closing while the physical Enter submits and closes |
| Text.TrimStart | src/components/UserInfoScreen.tsx:115 | the longest suffix that does not start with whitespace; everything dropped is whitespace |
| Text.TrimEnd | src/components/UserInfoScreen.tsx:115 | the longest prefix that does not end with whitespace; everything dropped is whitespace |
| Text.TrimEmptyIffBlank | src/components/ConfirmationScreen.tsx:177 | `s.trim() === ""` exactly when every character is whitespace |
| Text.TrimOfTrimmed | src/components/UserInfoScreen.tsx:115 | a text without surrounding whitespace is its own trim |
| Text.LowerChar | src/components/OrderHistoryTab.tsx:161 | ASCII capitals map to their lower-case letter, everything else is unchanged |
| Text.UpperChar | src/components/VirtualKeyboard.tsx:39 | ASCII lower-case letters map to their capital, everything else is unchanged |
| Text.Lower | src/components/OrderHistoryTab.tsx:161-166 | `toLowerCase` maps every character and keeps the length |
| Text.Upper | src/components/VirtualKeyboard.tsx:39 | `toUpperCase` maps every character and keeps the length |
| Text.UpperFirst | src/components/ConfirmationScreen.tsx:351 | the first character is capitalised and the rest kept |
| Text.IncludesEmpty | src/components/OrderHistoryTab.tsx:163-166 | the empty search text occurs in every string |
| Text.Join | src/components/ConfirmationScreen.tsx:334 | joining one part gives that part, joining none gives "" |
| Text.FilledEntries | src/components/ConfirmationScreen.tsx:177 | the kept entries are non-blank entries of the list, no more of them than the list has |
| Text.Split | src/components/FinalReceiptScreen.tsx:745 | at least one piece, none holding the separator |
| Text.SplitJoinRoundTrip | src/components/FinalReceiptScreen.tsx:745 | joining the pieces with the separator gives back the text |
| Text.SplitWithout | src/components/FinalReceiptScreen.tsx:745 | text without the separator is one piece |
| Text.SplitAfterHead | src/components/FinalReceiptScreen.tsx:745 | the first separator splits off the head before it |
| Text.NatToString | src/components/OrderNumberManager.tsx:53 | at least one digit, all digits, and a leading '0' only for zero |
| Text.IntToString | src/App.tsx:154 | at least one character; digits for non-negative numbers and a leading '-' for negative ones |
| Text.DecimalRoundTrip | src/components/OrderNumberManager.tsx:53 | the decimal text of n reads back as n |
| Text.NatToStringInjective | src/components/OrderNumberManager.tsx:53 | distinct numbers have distinct decimal texts |
| Text.LeadingZerosValue | src/components/OrderNumberManager.tsx:53 | leading zeros do not change a decimal value |
| Text.NatToStringLength | src/components/OrderNumberManager.tsx:53 | a number below 10^k needs at most k digits |
| Text.PadStart | src/components/OrderNumberManager.tsx:53 | `padStart` gives length max(length, width), never truncating |
| Text.PadStartShape | src/components/OrderNumberManager.tsx:53 | the padded text ends with the original and everything before it is the pad character |
| Text.StripLeadingZeros | src/components/OrderNumberManager.tsx:53 | the suffix after the leading '0' characters, which does not itself start with '0' |
| Text.LeadingDigits | src/components/UserInfoScreen.tsx:136 | the longest prefix of digits: all digits, and followed by a non-digit or the end |
| Text.ParseInt | src/components/UserInfoScreen.tsx:136 | `parseInt` is NaN exactly when no digit follows the leading whitespace and optional sign |
| Text.ParseIntOfIntToString | src/components/UserInfoScreen.tsx:138 | `parseInt` reads back the decimal text of every integer |
| Text.LeadingDigitsStop | src/components/UserInfoScreen.tsx:136 | the digit run at the front of w + rest is w when rest starts with a non-digit |
| Text.FractionCents | src/components/PriceSummary.tsx:22 | a fraction contributes fewer than 100 cents |
| Text.UnsignedCents | src/components/PriceSummary.tsx:22 | an unsigned reading is never negative |
| Text.ParseFloatCents | src/components/PriceSummary.tsx:22 | `parseFloat` is NaN exactly when the text after leading whitespace and a sign has no reading |
| Text.Signed | src/components/PriceSummary.tsx:22 | the sign does not change whether there is a reading |
| Text.UnsignedCentsOfDigits | src/components/PriceSummary.tsx:22 | a run of digits reads as that many hundred cents |
| Text.UnsignedCentsOfPoint | src/components/PriceSummary.tsx:22 | digits, a point and digits read as the whole part's hundreds plus the fraction's cents |
| Text.UnsignedCentsOfParts | src/components/PriceSummary.tsx:22 | a whole part followed by a point and digits reads as their cents |
| Text.ParseFloatOfInteger | src/components/PriceSummary.tsx:22 | a whole number's text reads as that many hundred cents |
| Text.IntegerTextParts | src/App.tsx:154 | an integer's text has no leading space, a '-' exactly for negatives, and then the digits of its magnitude |
| Text.DigitsAsCents | src/components/PriceSummary.tsx:22 | the decimal text of m reads as m hundred cents |
| Text.ParseFloatCentsOf | src/components/PriceSummary.tsx:22 | `parseFloat` of unpadded text is its unsigned reading, negated after a '-' |
| Text.UnsignedMoneyTextCents | src/components/FinalReceiptScreen.tsx:155 | the unsigned money text of a cents reads back as a |
| Text.MoneyTextRoundTrip | src/components/FinalReceiptScreen.tsx:155 | `parseFloat` reads back every amount `toFixed(2)` writes |
| Text.MoneyTextSign | src/components/FinalReceiptScreen.tsx:155 | the money text has no leading space, starts with '-' exactly for negative amounts, and is the unsigned text after it |
| Text.UnsignedMoneyText | src/components/FinalReceiptScreen.tsx:155 | `toFixed(2)`: whole digits, a point, and two digits, holding a / 100 and a % 100 |
| Text.MoneyText | src/components/FinalReceiptScreen.tsx:155 | negative amounts are written as '-' followed by the text of their magnitude |
| Seqs.Filter | src/components/ConfirmationScreen.tsx:177 | `Array.filter` keeps only elements of the list that pass the test, never more than the list has |
| Seqs.FilterConcat | src/components/ConfirmationScreen.tsx:177 | filtering works element by element, so it keeps the list's order |
| Seqs.FilterMembership | src/components/ConfirmationScreen.tsx:177 | a value is kept exactly when it is in the list and passes the test |
| Seqs.FilterAll | src/components/ConfirmationScreen.tsx:177 | when everything passes, nothing is dropped |
| Seqs.FilterNone | src/components/ConfirmationScreen.tsx:177 | when nothing passes, nothing is kept |
| Seqs.FilterMultiset | src/components/ConfirmationScreen.tsx:177 | a passing value is kept as often as it occurs, any other not at all |
| Seqs.FilterNoDuplicates | src/components/BackgroundSelectionScreen.tsx:172-174 | filtering a duplicate-free list keeps it duplicate-free |
| Seqs.Remove | src/components/BackgroundSelectionScreen.tsx:160 | `filter(bgId => bgId !== id)` never holds the removed value |
| Seqs.RemoveMembership | src/components/BackgroundSelectionScreen.tsx:160 | every other value keeps its membership |
| Seqs.RemoveConcat | src/components/BackgroundSelectionScreen.tsx:160 | removal works element by element, so it keeps the list's order |
| Seqs.RemoveAbsent | src/components/BackgroundSelectionScreen.tsx:160 | removing an absent value changes nothing |
| Seqs.RemoveAt | src/components/BackgroundSelectionScreen.tsx:160 | in a duplicate-free list, removing the value at i cuts out exactly position i |
| Seqs.RemoveSplit | src/components/BackgroundSelectionScreen.tsx:160 | removing the one occurrence of x between a and b leaves a + b |
| Seqs.RemoveNoDuplicates | src/components/BackgroundSelectionScreen.tsx:160 | removal keeps a duplicate-free list duplicate-free |
| Seqs.AppendNoDuplicates | src/components/BackgroundSelectionScreen.tsx:180 | appending a new value keeps a list duplicate-free |

## Left out

- Timers are not modelled: the inactivity (AFK) timeout, the quick-photo countdown, the 3-second delay before the receipt saves, history polling and window events. For the admin's hold-to-repeat steppers only the effect of one tick (`Admin.HoldIncrement`) is modelled, not the interval scheduling.
- The triple-tap counters that open the admin dialog are not modelled.
- Browser storage is a class field holding the parsed value. JSON text, `CustomEvent` dispatch, `window.print`, `alert` and the image canvas are not modelled, and `confirm()` is a boolean parameter.
- `Array.isArray` guards are modelled only as the stored value being "not an array".
- Dates and times: `Date.now()` is a parameter, and `toLocaleDateString`/`toLocaleTimeString` output is opaque text passed in.
- `parseFloat` is modelled on decimal text, truncated to cents. Exponents, hexadecimal and digits past the second decimal place are not modelled.
- `parseInt` is modelled on decimal text only.
- Case mapping (`toUpperCase`, `toLowerCase`) covers ASCII letters only.
- `validateBasePrice` (the admin's message for a malformed base price) is not modelled.
- Drag gestures and other layout geometry are not modelled.
- Image processing is not modelled. This covers `handleFileSelect` in src/components/UploadFinalPhotoTab.tsx (FileReader, canvas resizing, status messages) and the 2-second clear of the upload list after a successful upload. The file names it hands on are modelled.
- Object aliasing in the outputs dialog is not modelled: the source shallow-copies the outputs object and then mutates entry objects shared with the previous state. The model works on values.
- Outputs entry order: entries of the per-background outputs object are kept in insertion order. JavaScript lists integer-like keys, such as the catalogue ids "1".."12", first and in ascending order. No modelled result depends on the order: totals are sums, and validity and the sync effect use lookups.
- A catalogue id and a string id can produce the same object key. Properties that depend on keys being distinct carry `DistinctKeys` as a hypothesis, which holds for ids of the kiosk's own shapes (`Backgrounds.DistinctKeysOfKnownShapes`).
- The delivery-and-payment screen's own running total is not modelled. It is displayed only, and the confirmation screen recomputes it.
- The background screen's tables of names and image paths are not modelled. They are presentation data.
- Input focus (`inputRef`) and the keyboard's visual-only parts (key layout, highlighting) are not modelled.
- Presentation-only components are not modelled: the home screen, help button, logo, touch feedback, cancel-confirmation dialog, progress bar, extra-backgrounds dialog, admin password dialog, quick-photo screen and custom-background upload dialog.
- Storage that throws on write (quota, private mode) is not modelled for the order history: `saveOrderToHistory` only logs such an error. For the order counter, a throwing read and a throwing write are modelled separately.
- A stored order counter that is not the decimal text of an integer is not modelled. `parseInt` would give NaN and the next number would be "0NaN". The model stores the integer itself, as every writer of the key does.
