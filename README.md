# Spa booking and shop: a Dafny model

This project models the core of a spa's booking and shop web application. It is a React front end with a
database behind it and three server-side functions. The models cover:

- **The availability engine** (`src/utils/timeCalculations.ts`). It reads booking times such as
  "02:00 م" as minutes from 9:00 and durations such as "30 mins" or "1.5 hr" as minutes. It turns bookings
  into time blocks and answers whether a start time fits the 9:00 to 19:00 window without hitting a block.
  It also lists the candidate start times, finds the first free one and counts the free ones.
- **The booking timeline** (`BookingTimeline.tsx`). It shows the selectable half-hour slots, a grid of
  15-minute cells grouped by hour, the highlighted selection, and the "no slots" message.
- **The booking form** (`BookingForm.tsx`). It covers phone-number clean-up, sending and checking a
  WhatsApp verification code, the price of the chosen duration, and the pending booking it writes.
- **The three server functions:**
  - `send-verification` draws a six-digit code, refuses a phone once the table holds three of its codes
    from the last hour, and replaces the phone's unused codes. That replacement deletes the very codes
    the check counts, so a phone that never verifies is never refused (see "Findings");
  - `verify-code` checks a code, counts wrong attempts and locks after five;
  - `approve-booking` approves only a pending booking and sends a confirmation. A WhatsApp call that
    throws after the approval turns the answer into an error (see "Findings").
- **The shop** (`Shop.tsx`, `ProductDetails.tsx`). It covers the cart (add, change the quantity, remove,
  stock limits), the subtotal and shipping fee, checkout into an order and its items, and the product
  pictures.
- **The admin screens:**
  - orders (`OrdersManagement.tsx`): which status buttons an order offers and the badge it shows;
  - clients (`ClientsManagement.tsx`): adding clients, progress notes, assigning bookings;
  - services (`ServicesManagement.tsx`): the service form, duration options, pictures and the
    active switch.
- **The tracking page** (`BookingTrack.tsx`). It searches bookings by phone, cancels a pending booking,
  and shows the rating form only once per approved booking.

How the source is modelled:

- Pure helpers become functions, and the properties about them become lemmas.
- Each React component becomes a class. Its fields are the component's state, and each handler is a
  method whose `ensures` gives the whole new state.
- Each server function is a pure specification function (`Verification`, `Sending`, `Approving`) that
  gives the response, the rows written and the message sent. A handler method works on a table object
  and is proved equal to that function.
- Everything the outside world decides is a parameter. That covers the clock, `Math.random`, whether a
  database call fails, and what WhatsApp answers.
- JavaScript numbers that can be `NaN` are `JsText.Num`. `parseInt` and `parseFloat` are modelled on
  text.

Modules: `Wrappers` and `JsText` hold shared definitions and JavaScript's text functions. Each of the
other modules follows one source file, except that `VerificationStore`, `BookingRecords` and `Cart` hold
the tables and the cart that several files share.

## Model

| member | source | states |
|---|---|---|
| TimeCalculations.MatchTimeNoneIff | src/utils/timeCalculations.ts:21-22 | The `/(\d+):(\d+)/` match fails exactly when the text has no digit-colon-digit anywhere |
| TimeCalculations.TrimKeepsTimePattern | src/utils/timeCalculations.ts:18-21 | Trimming neither creates nor removes a `digits:digits` |
| TimeCalculations.UnparseableTimeIsNine | src/utils/timeCalculations.ts:21-22 | A time text with no `digits:digits` is read as 0, that is 9:00, not midnight |
| TimeCalculations.ParseTimeMeridiem | src/utils/timeCalculations.ts:24-42 | Meridiem rule, every case: a PM marker adds 12 to every hour but 12, even beside an AM marker; an AM marker turns 12 into 0, even beside a PM marker; 12 with a PM marker alone stays 12; any other hour is taken as it stands; the result is minus 540 |
| TimeCalculations.ParseDurationOfMinutes | src/utils/timeCalculations.ts:50-52 | A text containing "mins" gives exactly `parseInt` of the text |
| TimeCalculations.ParseDurationOfHours | src/utils/timeCalculations.ts:54-55 | Any other text gives NaN exactly when `parseFloat` finds no number; otherwise it gives the decimal times 60 |
| TimeCalculations.ParseDurationOfDecimal | src/utils/timeCalculations.ts:54-55 | An hours text whose decimal times 60 is whole gives exactly that many minutes |
| TimeCalculations.MinutesToTime24WithinDay | src/utils/timeCalculations.ts:61-68 | Within a day, the 24-hour form shows the hour and minute of 9:00 plus m |
| TimeCalculations.MinutesToTime12WithinDay | src/utils/timeCalculations.ts:61-76 | Within a day, the 12-hour form shows dial hour 1..12 and the minute, marked م from noon on and ص before |
| TimeCalculations.ClockTextDigits | src/utils/timeCalculations.ts:67 | Numbers below 100 are written as two digits each around the colon |
| TimeCalculations.ParseClockText24 | src/utils/timeCalculations.ts:16-43 | A "HH:MM" text reads back as HH*60+MM-540 |
| TimeCalculations.ParseClockText12 | src/utils/timeCalculations.ts:16-43 | A "HH:MM م/ص" text reads back through the meridiem rule |
| TimeCalculations.DialHourRoundTrip | src/utils/timeCalculations.ts:70-72 | Reading a dial hour with the marker of its half of the day gives the 24-hour hour back |
| TimeCalculations.RoundTrip | src/utils/timeCalculations.ts:16-76 | `parseTimeToMinutes(minutesToTime(m, use24Hour)) == m` for every m inside the day, in both forms |
| TimeCalculations.CalculateTimeBlocks | src/utils/timeCalculations.ts:81-94 | One block per booking, in order, with start = parsed time, end = start + parsed duration (NaN if it is NaN), and label "time (duration)" |
| TimeCalculations.IsTimeSlotAvailable | src/utils/timeCalculations.ts:99-124 | The answer is true iff the slot lies in [0, 600] and none of the three overlap clauses holds for any block |
| TimeCalculations.HitsIffHalfOpenOverlap | src/utils/timeCalculations.ts:114-118 | For a positive duration and a non-empty block, the three clauses mean exactly that the half-open intervals overlap |
| TimeCalculations.NaNBlockNeverHits | src/utils/timeCalculations.ts:114-118 | A block whose end is NaN never blocks anything |
| TimeCalculations.AvailableIffNoOverlap | src/utils/timeCalculations.ts:99-124 | For a positive duration and blocks that are all non-empty with a numeric end: available iff inside the window and overlapping no block, in both directions |
| TimeCalculations.HitsMonotone | src/utils/timeCalculations.ts:114-118 | For any block, NaN-ended, empty or inverted ones included: a block that meets a request of positive duration meets every longer request from the same start |
| TimeCalculations.ZeroLengthRequestMeetsBlockEndingThere | src/utils/timeCalculations.ts:114-118 | A request of no duration is met by a block ending at its start, which a longer request from there is not |
| TimeCalculations.AvailableForShorter | src/utils/timeCalculations.ts:99-124 | For any blocks, NaN-ended and empty ones included: shortening a request to any positive duration never turns a free start busy |
| TimeCalculations.GenerateTimeIntervals | src/utils/timeCalculations.ts:129-138 | The list is the 12-hour display of k*step for every k*step <= 600, in order, and nothing beyond |
| TimeCalculations.HalfHourIntervals | src/utils/timeCalculations.ts:129-138 | With the default step of 30 the list has 21 entries, from "09:00 ص" to "07:00 م" |
| TimeCalculations.FindNextAvailableSlot | src/utils/timeCalculations.ts:143-157 | null iff no candidate k*step <= 600-d is available; otherwise the display of the first available candidate |
| TimeCalculations.GetAvailableSlotsCount | src/utils/timeCalculations.ts:160-174 | The count equals the number of available candidates 0, step, ... <= 600-d |
| TimeCalculations.CountZeroIff | src/utils/timeCalculations.ts:160-174 | The count is 0 iff no remaining candidate is available |
| TimeCalculations.NoNextSlotIffCountZero | src/utils/timeCalculations.ts:143-174 | `findNextAvailableSlot` gives null exactly when `getAvailableSlotsCount` gives 0 |
| TimeCalculations.CountShrinksWithDuration | src/utils/timeCalculations.ts:160-174 | For any blocks and positive durations: a longer duration never raises the count of free starts |
| TimeCalculations.MinutesDurationExample | src/utils/timeCalculations.ts:49-56 | "30 mins" is 30 minutes |
| TimeCalculations.HourDurationExample | src/utils/timeCalculations.ts:49-56 | "1 hr" is 60 minutes |
| TimeCalculations.HourAndAHalfDurationExample | src/utils/timeCalculations.ts:49-56 | "1.5 hr" is 90 minutes |
| TimeCalculations.AfternoonTimeExample | src/utils/timeCalculations.ts:16-76 | 300 minutes is shown as "02:00 م", and "02:00 م" reads as 300 |
| TimeCalculations.AfternoonBlockExample | src/utils/timeCalculations.ts:99-124 | Around a block [300, 360), 30-minute starts at 270 and 360 fit and those at 300 and 330 do not; an hour at 570 overruns 19:00 |
| BookingTimeline.DurationMinutesCases | src/components/BookingTimeline.tsx:27 | No selected duration means 60; a "mins" text means `parseInt`; an hours text means 60 per hour, or NaN |
| BookingTimeline.BuildTimeSlots | src/components/BookingTimeline.tsx:30-42 | Slot k is at 30k, shows `minutesToTime(30k)` and is available iff `isTimeSlotAvailable` says so, for every 30k <= 600-d and no more; a NaN or over-long duration gives no slots |
| BookingTimeline.AvailableSlots | src/components/BookingTimeline.tsx:183 | `filter(s => s.available)` keeps exactly the available slots |
| BookingTimeline.NoSlotsMessageIff | src/components/BookingTimeline.tsx:183-187 | The number of free slots equals `getAvailableSlotsCount(d, blocks, 30)`; the message shows iff no start 30k <= 600-d is free |
| BookingTimeline.SlotClick | src/components/BookingTimeline.tsx:175 | A click selects iff the slot is available, and selects the slot's time |
| BookingTimeline.ClickedSlotIsFree | src/components/BookingTimeline.tsx:34-39 | A time that reaches `onTimeSelect` reads back as the slot's minute, and that start is free for the duration |
| BookingTimeline.BuildTimelineCells | src/components/BookingTimeline.tsx:45-65 | 40 cells; cell k is minute 15k, booked with the label of the first covering block, or free |
| BookingTimeline.GridCellMeaning | src/components/BookingTimeline.tsx:48-62 | A cell is booked iff some block covers its minute; its label is that of the first such block; a free cell has no label |
| BookingTimeline.BuildHourGroups | src/components/BookingTimeline.tsx:68-88 | Ten groups; group g has label "displayHour period" of hour 9+g and the cells with minutes in [60g, 60g+60) |
| BookingTimeline.GridHourRow | src/components/BookingTimeline.tsx:73-75 | On the 40-cell grid, hour row g holds exactly cells 4g..4g+3 |
| BookingTimeline.HourLabelAgreesWithClock | src/components/BookingTimeline.tsx:77-82 | The row label's hour and marker agree with `minutesToTime` of the row's first minute |
| BookingTimeline.SelectionIff | src/components/BookingTimeline.tsx:90-91 | A cell is highlighted iff a time is selected, it reads as a start >= 0, and the cell lies in [start, start+d); a NaN duration highlights nothing |
| BookingTimeline.SelectedSlotHighlight | src/components/BookingTimeline.tsx:127-130 | After choosing slot k, the highlighted cells are exactly those in [30k, 30k+d) |
| BookingTimeline.CellStyleOf | src/components/BookingTimeline.tsx:136-141 | Booked style iff booked; selection style iff not booked and in the selection |
| Cart.SubtotalUpdate | src/pages/Shop.tsx:173-175 | Replacing one line changes the subtotal by the difference of the two line totals |
| Cart.TotalItemsUpdate | src/pages/ProductDetails.tsx:38-42 | Replacing one line changes the unit count by the difference of the quantities |
| Shop.ShopPage.constructor | src/pages/Shop.tsx:41-49 | An empty cart and form, with the shipping methods the page fetched; the cart invariant holds |
| Shop.ShopPage.AddToCart | src/pages/Shop.tsx:115-132 | A new product is appended with quantity 1; an existing line gains one unit unless it has reached the product's stock; ids stay unique and quantities positive |
| Shop.ShopPage.UpdateQuantity | src/pages/Shop.tsx:134-155 | Unknown product: no change; new quantity <= 0: the line is removed; above the line's stock: no change; otherwise only that line's quantity changes |
| Shop.ShopPage.RemoveFromCart | src/pages/Shop.tsx:157-159 | Exactly the product's lines are dropped, the rest keep their order |
| Shop.WithoutUnique | src/pages/Shop.tsx:157-159 | With unique ids, removing a product drops exactly its line |
| Shop.ShippingFee | src/pages/Shop.tsx:167-171 | 0 without a selection or for an unknown id; otherwise the price of the first method with the id |
| Shop.OrderItemsMatchCart | src/pages/Shop.tsx:201-206 | One order item per cart line, and the items are worth exactly the cart's subtotal |
| Shop.OrderTotalAddsUp | src/pages/Shop.tsx:161-165 | The order total is the items' value plus the recorded shipping fee |
| Shop.ShopPage.Checkout | src/pages/Shop.tsx:177-226 | Refused iff a required field is empty; the order row records the fee, total, notes-or-null and "pending"; items follow the cart; the cart and form are cleared only when both inserts succeed |
| Shop.ShopProductImage | src/pages/Shop.tsx:90-99 | A bundled picture iff the address is one of the five file names; otherwise the address itself |
| Shop.ShopAndDetailsPictures | src/pages/Shop.tsx:90-99 | The shop and the product page show the same picture for a bundled file name; for another address the product page falls back to massage oil |
| ProductDetails.GetProductImage | src/pages/ProductDetails.tsx:70-79 | The picture whose file name is the address, or massage oil when no file name matches |
| ProductDetails.ImageRoundTrip | src/pages/ProductDetails.tsx:70-79 | Every bundled picture is found again from its own file name |
| ProductDetails.ProductPage.constructor | src/pages/ProductDetails.tsx:32-49 | The counter starts at 1, and the badge shows the number of units in the stored cart |
| ProductDetails.ProductPage.UpdateCartCount | src/pages/ProductDetails.tsx:38-42 | The badge equals the number of units in the stored cart |
| ProductDetails.ProductPage.HandleAddToCart | src/pages/ProductDetails.tsx:81-96 | Without a product nothing changes; otherwise the first matching line gains the counter's quantity, with no stock cap, or a new line is pushed; the badge grows by the quantity |
| ProductDetails.ProductPage.DecreaseQuantity | src/pages/ProductDetails.tsx:98-100 | One less, never below 1 |
| ProductDetails.ProductPage.IncreaseQuantity | src/pages/ProductDetails.tsx:102-106 | One more only while there is a product and the counter is below its stock; the counter stays within [1, stock] |
| OrdersManagement.TerminalIff | src/components/OrdersManagement.tsx:166-192 | Exactly cancelled and delivered orders offer no button |
| OrdersManagement.TransitionSources | src/components/OrdersManagement.tsx:166-192 | delivered is reached only from confirmed, confirmed only from pending; no button keeps the status |
| OrdersManagement.TerminalIsFinal | src/components/OrdersManagement.tsx:166-192 | Once cancelled or delivered, no sequence of button presses changes the status |
| OrdersManagement.StaysKnown | src/components/OrdersManagement.tsx:166-192 | From a known status, presses only lead to known statuses |
| OrdersManagement.DeliveredWasConfirmed | src/components/OrdersManagement.tsx:166-192 | A pending order that ends delivered was confirmed at some earlier point |
| OrdersManagement.StatusBadge | src/components/OrdersManagement.tsx:91-107 | Unknown status: secondary with the raw text; destructive iff cancelled; default iff confirmed or delivered |
| OrdersManagement.BadgeShowsRawTextIff | src/components/OrdersManagement.tsx:99-106 | The raw status text is shown iff the status is not one of the four known ones |
| OrdersManagement.LineTotalMatchesCart | src/components/OrdersManagement.tsx:151 | The admin's line total of an order item is what that cart line cost at checkout |
| OrdersManagement.OrdersBoard.UpdateOrderStatus | src/components/OrdersManagement.tsx:78-89 | On success only that order's status changes; on an error nothing changes |
| OrdersManagement.OrdersBoard.Press | src/components/OrdersManagement.tsx:166-192 | Pressing a shown button writes that button's status |
| BookingForm.LocalDigitsShape | src/components/BookingForm.tsx:200-202 | The local part is all digits and never starts with 0 |
| BookingForm.VerificationPhoneSplits | src/components/BookingForm.tsx:203 | The number sent is the cleaned country code followed by the local digits |
| BookingForm.VerificationPhoneIsDigits | src/components/BookingForm.tsx:203 | With a country code of digits, + and spaces, the number sent is all digits |
| BookingForm.SavedPhoneCleansToVerified | src/components/BookingForm.tsx:309-311 | Cleaning the saved number gives the verified number |
| BookingForm.DefaultCountryCodePhones | src/components/BookingForm.tsx:46 | With +970, "970" + local digits is verified and "+970" + local digits is saved |
| BookingForm.DurationAfterFetch | src/components/BookingForm.tsx:76-92 | With options, the selection is always offered; an offered, non-empty selection is kept; with none the selection stays |
| BookingForm.DurationAfterFetchIdempotent | src/components/BookingForm.tsx:76-92 | Re-fetching the same options changes nothing, for every selection and option list, an empty first value included |
| BookingForm.PriceFrom | src/components/BookingForm.tsx:123 | The price of the first option with the value, or 0 |
| BookingForm.FormState.constructor | src/components/BookingForm.tsx:41-54 | The initial form: country code +970, everything else empty, not sent, not verified |
| BookingForm.FormState.OnDurationOptionsFetched | src/components/BookingForm.tsx:76-92 | The options are replaced and the duration is re-selected |
| BookingForm.FormState.OnPhoneChange | src/components/BookingForm.tsx:480-487 | Only digits are kept, and the whole verification is reset |
| BookingForm.FormState.HandleSendVerification | src/components/BookingForm.tsx:189-230 | Nothing without a phone; otherwise the cleaned number is sent, and the code counts as sent once the call succeeds |
| BookingForm.FormState.HandleVerifyCode | src/components/BookingForm.tsx:232-283 | A code that is not six characters is refused locally; otherwise the number and code are sent, and only a success reply verifies |
| BookingForm.FormState.PendingBooking | src/components/BookingForm.tsx:313-325 | The row has status pending, the saved phone, the chosen duration's price, and notes null iff empty |
| BookingForm.FormState.ResetForm | src/components/BookingForm.tsx:335-344 | Everything cleared and the duration back to the first option |
| BookingForm.FormState.HandleSubmit | src/components/BookingForm.tsx:285-325 | Missing field: refused; not verified: refused; otherwise the pending booking is written; the form is cleared only after a successful write, the service kept |
| VerificationStore.ValidatePhoneNumber | supabase/functions/verify-code/index.ts:29-44 | Accepted iff non-empty with 10 to 15 digits; the result is the digits |
| VerificationStore.ValidPhoneUnchanged | supabase/functions/verify-code/index.ts:29-44 | A number that is already 10 to 15 digits passes unchanged |
| VerificationStore.Recipient | supabase/functions/send-verification/index.ts:27 | "+" followed by the digits |
| VerificationStore.AfterFailedAttempt | supabase/functions/verify-code/index.ts:99-105 | Every unverified row of the phone counts one more attempt (null counts as 0); every other field and row is unchanged |
| VerificationStore.MarkedVerifiedOne | supabase/functions/verify-code/index.ts:120-123 | With unique ids, marking an id verified changes exactly that row |
| VerificationStore.WithoutOne | supabase/functions/verify-code/index.ts:73-76 | With unique ids, deleting an id removes exactly that row |
| VerificationStore.CodeTable.Insert | supabase/functions/send-verification/index.ts:71-76 | A new unverified row with a null counter and a fresh id is appended |
| VerifyCode.RecordFailedAttempt | supabase/functions/verify-code/index.ts:92-105 | The loop over the phone's unverified codes leaves the table as `AfterFailedAttempt` |
| VerifyCode.HandleVerifyCode | supabase/functions/verify-code/index.ts:15-150 | The response and the new table are exactly what `Verification` gives |
| VerifyCode.ErrorsLeaveTable | supabase/functions/verify-code/index.ts:139-150 | Every 500 answer leaves the table unchanged |
| VerifyCode.MalformedRequestsRefused | supabase/functions/verify-code/index.ts:19-44 | A missing field, a code that is not six digits, or a bad phone is refused with its message before any lookup |
| VerifyCode.VerifiedWhenSingleLiveCode | supabase/functions/verify-code/index.ts:56-128 | With one live row: fewer than 5 attempts and a successful update means verified, that row alone marked; a failed update is a 500 with no change; 5 or more means 429 and the row is deleted |
| VerifyCode.WrongCodeCounted | supabase/functions/verify-code/index.ts:90-117 | Without a live row the answer is 400 and each unverified row of the phone counts one more attempt |
| VerifyCode.VerifiedOnlyFromLiveCode | supabase/functions/verify-code/index.ts:56-128 | Any success comes from a well-formed request and a live row with fewer than 5 attempts, and marks exactly that row |
| VerifyCode.NoReplay | supabase/functions/verify-code/index.ts:120-123 | A code that was just accepted is refused when presented again, now or later |
| VerifyCode.FailedAttemptsCount | supabase/functions/verify-code/index.ts:99-105 | After n wrong codes a live row's counter has grown by n and nothing else about it changed |
| VerifyCode.LockedAfterFiveWrongCodes | supabase/functions/verify-code/index.ts:71-88 | After five wrong codes, even the right code is refused with 429 |
| SendVerification.GeneratedCode | supabase/functions/send-verification/index.ts:32 | `floor(100000 + r * 900000)` lies in [100000, 999999] for r in [0, 1) |
| SendVerification.GeneratedCodeIsSixDigits | supabase/functions/send-verification/index.ts:32 | The code's text passes verify-code's six-digit check |
| SendVerification.ReplyResponse | supabase/functions/send-verification/index.ts:97-143 | An error iff WhatsApp answers unsuccessfully, with an HTTP error other than "connecting", or the call throws; a refusal reports the WhatsApp failure text, a throw its own message or the generic one |
| SendVerification.HandleSendVerification | supabase/functions/send-verification/index.ts:15-150 | The response, the message sent and the new table are exactly what `Sending` gives |
| SendVerification.RefusedLeavesTable | supabase/functions/send-verification/index.ts:19-61 | A rate-limited request changes nothing and sends nothing; a phone outside 10 to 15 digits is always refused with the bad-phone error, the table unchanged |
| SendVerification.StoredCodeReplacesUnused | supabase/functions/send-verification/index.ts:63-76 | After a stored code the phone has exactly one unused code, the new one, and every other row is kept |
| SendVerification.StoredWhateverWhatsAppSays | supabase/functions/send-verification/index.ts:86-128 | The stored code does not depend on WhatsApp's answer; the message goes to "+" and the digits |
| SendVerification.AtMostThreeHeldPerHour | supabase/functions/send-verification/index.ts:40-76 | While the rate query works, the table holds at most three of the phone's codes from the last hour after a store; this bounds rows held, not codes sent |
| SendVerification.SendLeavesOneUnverified | supabase/functions/send-verification/index.ts:40-76 | For a phone with no verified code, any request past the rate check leaves it exactly its newest unverified code or none |
| SendVerification.NeverVerifiedPhoneNeverLimited | supabase/functions/send-verification/index.ts:39-76 | As written: from a table where a phone holds at most one unverified row, every request passes the rate check and keeps it so, so such a phone is never refused |
| SendVerification.SendingWithLog | supabase/functions/send-verification/index.ts:39-76 | Corrected request: counts a log of issued codes; the log grows by exactly the stored code, and only when a code is stored |
| SendVerification.LoggedSendKeepsThreePerHour | supabase/functions/send-verification/index.ts:39-61 | Corrected request: while the rate query works, no hour-long window ever holds more than three codes issued to a phone |
| SendVerification.LoggedSendRefusesFourth | supabase/functions/send-verification/index.ts:39-61 | Corrected request: three codes issued to the phone within the hour make the next request rate-limited, with nothing changed |
| SendVerification.SentCodeVerifies | supabase/functions/send-verification/index.ts:32-81 | A code just stored is accepted by verify-code for the same phone at any time before it expires |
| BookingRecords.WithStatusOne | supabase/functions/approve-booking/index.ts:64-68 | With unique ids, a status update by id changes exactly that booking |
| BookingRecords.UpdatesKeepIds | supabase/functions/approve-booking/index.ts:64-68 | Updates by id keep every id, so the ids stay unique |
| ApproveBooking.ServiceName | supabase/functions/approve-booking/index.ts:48-54 | The name is never empty; any name other than "خدمة" is the name of a service row with the id |
| ApproveBooking.ServiceNameFound | supabase/functions/approve-booking/index.ts:48-54 | With exactly one named row for the id, that name is used |
| ApproveBooking.WhatsAppRecipient | supabase/functions/approve-booking/index.ts:81-82 | "+" followed only by digits |
| ApproveBooking.NotifiedResponse | supabase/functions/approve-booking/index.ts:97-129 | After the approval: a success, passing on the reply's `success`, exactly when WhatsApp replied; a throw answers an error with its own message or the generic one |
| ApproveBooking.HandleApproveBooking | supabase/functions/approve-booking/index.ts:15-129 | The response, the confirmation and the new table are exactly what `Approving` gives, including an error answer after the approval when the WhatsApp call throws |
| ApproveBooking.PendingIsApproved | supabase/functions/approve-booking/index.ts:43-129 | A pending booking is approved when the update succeeds: it alone becomes approved, and the message goes to "+" and its digits; the answer is a success passing on `success` when WhatsApp replied, an error when the call threw |
| ApproveBooking.NotPendingRefused | supabase/functions/approve-booking/index.ts:43-45 | A booking that is not pending is refused and nothing changes |
| ApproveBooking.UnknownRefused | supabase/functions/approve-booking/index.ts:28-41 | An id no booking carries is refused and nothing changes |
| ApproveBooking.ApprovalOnlyFromPending | supabase/functions/approve-booking/index.ts:43-73 | Any success answer or change to the table comes from a pending booking with the id and changes only its status |
| ApproveBooking.WhatsAppDoesNotUndo | supabase/functions/approve-booking/index.ts:86-105 | Whatever the WhatsApp call does, replies or throws, the table and the message are the same; any two replies agree on success |
| ApproveBooking.SecondApprovalRefused | supabase/functions/approve-booking/index.ts:43-45 | Approving the same booking twice: the second request is refused and the booking stays approved |
| ApproveBooking.ThrownCallReportsFailureAfterApproval | supabase/functions/approve-booking/index.ts:64-129 | As written: a throwing WhatsApp call after the update answers an error while the booking is already approved |
| ApproveBooking.ApprovingNotifyTolerant | supabase/functions/approve-booking/index.ts:101-105 | Corrected approval: the same table and message as written, a throw counting as an undelivered message |
| ApproveBooking.TolerantSuccessIffApproved | supabase/functions/approve-booking/index.ts:64-118 | Corrected approval: the answer is a success exactly when the table changed |
| BookingTrack.GetServiceName | src/pages/BookingTrack.tsx:74-76 | The name of the first listed service with the id, or the id when none is listed |
| BookingTrack.ListedServiceNames | src/pages/BookingTrack.tsx:38-43 | Each of the four listed ids is shown by its Arabic name |
| BookingTrack.ActionsExclusive | src/pages/BookingTrack.tsx:270-324 | A booking shows at most one of cancel, the rating form and the thanks note; an approved one shows exactly one of the last two |
| BookingTrack.RatingHidesForm | src/pages/BookingTrack.tsx:305-316 | After a rating the form is gone for that booking and the thanks shows; other bookings are unaffected |
| BookingTrack.CancelOnlyTarget | src/pages/BookingTrack.tsx:151-153 | Cancelling changes exactly that booking, which then offers neither cancel nor rating |
| BookingTrack.SavedBookingFound | src/pages/BookingTrack.tsx:110 | A booking saved by the booking form is found by searching the local digits the customer typed |
| BookingTrack.TrackPage.HandleSearch | src/pages/BookingTrack.tsx:91-134 | An empty phone is refused before any query; otherwise the list is the bookings whose phone contains the text, and the outcome says whether it is empty; a failed query keeps the list |
| BookingTrack.TrackPage.HandleCancelBooking | src/pages/BookingTrack.tsx:136-162 | After a successful update the booking shows canceled; otherwise nothing changes |
| BookingTrack.TrackPage.CheckReviewedBookings | src/pages/BookingTrack.tsx:58-72 | The reviewed set is exactly the listed bookings that have a review; on an error it stays |
| BookingTrack.TrackPage.OnRatingSuccess | src/pages/BookingTrack.tsx:311-313 | The booking joins the reviewed set |
| ClientsManagement.UpdatedProgress | src/components/ClientsManagement.tsx:132-144 | The existing notes (an array, a single note or none) in order, then the new note |
| ClientsManagement.StaleSnapshotKeepsLastNoteOnly | src/components/ClientsManagement.tsx:129-149 | As written: adding several notes in one open dialog stores the original notes plus only the last one |
| ClientsManagement.SecondNoteOverwritesFirst | src/components/ClientsManagement.tsx:129-149 | As written: two notes on a client without notes leave only the second |
| ClientsManagement.RefreshedSnapshotKeepsAllNotes | src/components/ClientsManagement.tsx:129-149 | Corrected: with the snapshot refreshed after each write, every note is kept, in order |
| ClientsManagement.Partition | src/components/ClientsManagement.tsx:249-255 | A booking is listed under a client iff it carries the id, as available iff it carries none, and never in both |
| ClientsManagement.AssignMovesBooking | src/components/ClientsManagement.tsx:194-247 | Assigning moves that booking alone to the client's list; unassigning moves it back to the available list |
| ClientsManagement.NewClientRow | src/components/ClientsManagement.tsx:97-105 | The age is stored iff given and numeric; gender and address are null iff empty, otherwise as typed |
| ClientsManagement.AgeOfDigits | src/components/ClientsManagement.tsx:100 | An age typed as digits is stored as their value |
| ClientsManagement.WithoutClient | src/components/ClientsManagement.tsx:169-174 | The clients other than the id remain |
| ClientsManagement.ClientsScreen.SelectClient | src/components/ClientsManagement.tsx:378 | Opening a client's dialog sets the snapshot |
| ClientsManagement.ClientsScreen.HandleAddProgress | src/components/ClientsManagement.tsx:129-167 | Nothing for a blank note or without a client; otherwise the snapshot's notes plus the new one are written to the client, and the field clears on success; the snapshot is not refreshed |
| ClientsManagement.ClientsScreen.HandleAddProgressRefreshed | src/components/ClientsManagement.tsx:129-167 | The same, but the snapshot takes the written notes after a successful write |
| ClientsManagement.ClientsScreen.HandleAssignBooking | src/components/ClientsManagement.tsx:194-221 | On success the booking's client becomes the client; otherwise nothing changes |
| ClientsManagement.ClientsScreen.HandleUnassignBooking | src/components/ClientsManagement.tsx:223-247 | On success the booking's client becomes null; otherwise nothing changes |
| ClientsManagement.ClientsScreen.HandleAddClient | src/components/ClientsManagement.tsx:90-127 | The form's row is inserted; on success the form is cleared and the new client heads the list |
| ClientsManagement.ClientsScreen.HandleDeleteClient | src/components/ClientsManagement.tsx:169-192 | On success the client is gone and the others stay |
| ServicesManagement.GetServiceImage | src/components/ServicesManagement.tsx:79-92 | Uploaded iff the address starts with "http"; otherwise hammam iff the name has حمام but not مساج, skin care iff it has عناية and neither of the others, and massage otherwise |
| ServicesManagement.MassageIsTheFallback | src/components/ServicesManagement.tsx:86-91 | Without an uploaded picture, a massage name or a name with none of the words shows the massage picture |
| ServicesManagement.OptionsOrDefaults | src/components/ServicesManagement.tsx:103-110 | Only a missing list becomes the three defaults; a stored list, even empty, is kept |
| ServicesManagement.EditSize | src/components/ServicesManagement.tsx:463-546 | Adding grows the list by one; removing shrinks it by one only from two or more; field edits keep the length |
| ServicesManagement.EditsKeepAnOption | src/components/ServicesManagement.tsx:533-546 | Whatever is done in the form, a list with an option keeps at least one |
| ServicesManagement.PriceInput | src/components/ServicesManagement.tsx:520 | A text that is not a number, or is zero, reads as 0 |
| ServicesManagement.WholePriceInput | src/components/ServicesManagement.tsx:520 | A whole price typed as digits reads as that number |
| ServicesManagement.DisplayOrder | src/components/ServicesManagement.tsx:188 | Empty text is null; otherwise `parseInt`, with NaN written as null |
| ServicesManagement.DisplayOrderText | src/components/ServicesManagement.tsx:238 | Empty iff there is no order |
| ServicesManagement.DisplayOrderRoundTrip | src/components/ServicesManagement.tsx:188-238 | Any display order, negative ones included, reads back as itself |
| ServicesManagement.EditForm | src/components/ServicesManagement.tsx:230-246 | The form shows the service's options or the defaults, and an empty text for a missing description |
| ServicesManagement.Payload | src/components/ServicesManagement.tsx:182-190 | Description null iff empty; display order as `DisplayOrder`; the options as they are |
| ServicesManagement.EditThenSaveKeepsService | src/components/ServicesManagement.tsx:182-243 | Opening a service and saving it unchanged writes back what it had, except that an empty description becomes null and missing options become the defaults |
| ServicesManagement.WithDefaultOptions | src/components/ServicesManagement.tsx:103-110 | Every fetched service, in order, with its options or the defaults |
| ServicesManagement.ToggleActive | src/components/ServicesManagement.tsx:273-278 | The rows with the id take `!currentState`; the others are unchanged |
| ServicesManagement.ToggleTwiceRestores | src/components/ServicesManagement.tsx:273-278 | Pressing the switch twice, each time with the state shown, restores the table |
| ServicesManagement.WithoutService | src/components/ServicesManagement.tsx:248-253 | The services other than the id remain |
| ServicesManagement.ServicesScreen.OnServicesFetched | src/components/ServicesManagement.tsx:94-121 | The list is the fetched rows with defaults; a failed fetch keeps it |
| ServicesManagement.ServicesScreen.HandleEdit | src/components/ServicesManagement.tsx:230-246 | The form holds `EditForm(service)`, the service is being edited, and the dialog is open |
| ServicesManagement.ServicesScreen.ResetForm | src/components/ServicesManagement.tsx:298-312 | The blank form with the default options, and nothing being edited |
| ServicesManagement.ServicesScreen.AddOption | src/components/ServicesManagement.tsx:463-470 | An empty option is appended |
| ServicesManagement.ServicesScreen.RemoveOption | src/components/ServicesManagement.tsx:533-546 | The option is removed unless it is the last, in which case a warning is given; at least one option remains |
| ServicesManagement.ServicesScreen.SetOptionValue | src/components/ServicesManagement.tsx:488-492 | Only that option's duration value changes |
| ServicesManagement.ServicesScreen.SetOptionLabel | src/components/ServicesManagement.tsx:501-505 | Only that option's label changes |
| ServicesManagement.ServicesScreen.SetOptionPrice | src/components/ServicesManagement.tsx:517-521 | Only that option's price changes |
| ServicesManagement.ServicesScreen.HandleSubmit | src/components/ServicesManagement.tsx:178-228 | `Payload(form)` is written as an update of the edited service or as an insert; once written, the form resets and the dialog closes; on an error nothing changes |

## Left out

- parseFloat's exponent forms, `Infinity` and the digit-count rules of floating-point output are not
  modelled. `parseFloat` reads an optional sign, digits and one decimal point.
- TimeCalculations.ParseDuration: defined only for hours texts whose hours times 60 is a whole number of
  minutes, such as "1 hr" and "1.5 hr", and computed exactly. Texts like "0.33 hr" would give fractional
  minutes. Binary rounding of the decimal is not modelled either: JavaScript's doubles give "4.1 hr" as
  245.99999999999997 minutes, "2.05 hr" as 122.99999999999999 and "8.2 hr" as 491.99999999999994, where
  the model gives 246, 123 and 492; the source's block end is then just below the model's, which
  matters exactly at a boundary compared in `isTimeSlotAvailable`. Values with one decimal place in
  halves ("1.5 hr", "2.5 hr") are exact in binary and agree.
- TimeCalculations.GenerateTimeIntervals, TimeCalculations.FindNextAvailableSlot,
  TimeCalculations.GetAvailableSlotsCount: require a positive step. For a step of zero or less the
  source's loops do not end: `generateTimeIntervals` never does, and the other two never do once 0 is a
  candidate (a duration of at most 600), unless `findNextAvailableSlot` finds 0 itself free.
- Dates and clocks are parameters: `new Date()`, `Date.now()`, `toISOString` and the Arabic date formatting
  of the approval message. Expiry and creation times are integers.
- `Math.random` is a fraction `num / den` given by the caller.
- The WhatsApp HTTP call is a parameter: `WhatsAppReply` in send-verification, `WhatsAppOutcome` in
  approve-booking, each with a case for a call that throws. The exception's text is a parameter. The
  message texts other than the verification message are not modelled.
- Database defaults come in as values: the verification code's `expires_at` is a parameter of the insert,
  and the new row's id comes from a counter. Database errors other than those named in the handlers'
  parameters are not modelled.
- The `like` search treats `%` and `_` in the typed text as literal characters. The ordering of the
  search results by date and creation time is not modelled.
- Fetches ordered by `created_at` or `display_order` are modelled as lists. `HandleAddClient` assumes the
  refetched list is newest first, so the new client heads it.
- Prices, totals and fees are integers. The price field's decimals are read by `PriceInput`, but the
  option stores a whole price.
- ServicesManagement.ServicesScreen.SetOptionPrice: takes the price already read from the field, not the
  typed text.
- The option editors copy the list shallowly and then assign a field of a shared option object. The
  model writes a new option value, so it does not capture that the same object is also held by the
  fetched services list.
- Reading and writing the cart in `localStorage` as JSON, real-time subscriptions, toasts, loading flags
  and the rendering are not modelled. The unused `timeSlots` list of the booking form is not modelled.
- Image upload (`handleFileUpload`) and the rating form's own insert are not modelled.

## Findings

| source | as written | input that shows it | evidently intended | confidence | as-written member | corrected member |
|---|---|---|---|---|---|---|
| supabase/functions/send-verification/index.ts:39-68 | The rate check counts the phone's codes of the last hour in the table, and every send then deletes the phone's unverified codes | A phone that never verifies: four requests a minute apart; each finds at most one row of its own, so none is refused | At most three codes per phone per hour, as the comment at line 39 says | not executed | SendVerification.NeverVerifiedPhoneNeverLimited | SendVerification.LoggedSendKeepsThreePerHour |
| supabase/functions/approve-booking/index.ts:86-129 | After the booking is approved, a rejected `fetch` or a reply that is not JSON throws, and the function answers 500 | A pending booking; the WhatsApp gateway answers with an HTML error page: the booking is approved, the answer is an error | The approval stands and is reported as such, as the comment at line 103 says ("don't fail the approval") | not executed | ApproveBooking.ThrownCallReportsFailureAfterApproval | ApproveBooking.TolerantSuccessIffApproved |
| src/components/ClientsManagement.tsx:129-149 | Each note is appended to the dialog's `selectedClient` snapshot, which is never refreshed after a write | A client with no notes; in one open dialog add note a, then note b: the stored notes are [b] | The stored notes are [a, b] | not executed | ClientsManagement.StaleSnapshotKeepsLastNoteOnly | ClientsManagement.RefreshedSnapshotKeepsAllNotes |
