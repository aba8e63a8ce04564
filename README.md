# front_rifas: a verified model of the storefront's client-side logic

front_rifas is the web storefront of a raffle ("rifa") business. Customers pick ticket numbers
and collect them in a cart. Administrators create raffles, attach images, and manage draws
("sorteos") and their prizes. Most of the code puts UI components on top of a REST backend. This
project models the small pieces of sequential logic in it and proves what they promise:

- **Cart** (`cart.dfy`): the cart slice of the Redux store. It is a class whose `items` sequence
  grows by `addToCart` and shrinks by `clearRaffleItems`, the slice's two reducers.
- **Drawings** (`drawings.dfy`): the draw/prize table of the admin. It has the two row type
  guards, the blank prize a drawing row starts, and the six functions that the create, update and
  delete hooks hand to the query cache. The cache is a list of drawings, each with an optional
  list of prizes.
- **RaffleCreate** (`raffle_create.dfy`): the raffle creation form. It covers the digit-only
  currency reader, drag-reordering and removal in the image list, and the whitespace-to-underscore
  name with its numbered file names and URLs. It also covers the close and expiration dates the
  form derives from the draw date (a class whose invariant the effects keep) and the
  sale-before-publication warning.
- **Middleware** (`middleware.dfy`): the route gate for `/admin`. It answers with next, a redirect
  to `/login`, or a redirect to `/unauthorized`.
- **DigitInput** (`digit_input.dfy`): one box of the ticket-number entry. Its field takes whatever
  the `value` prop holds; the change handler stores only "" or one digit, and the change and key
  handlers report the callbacks they fire.
- **Dropzone** (`dropzone.dfy`): the upload button. Each dropped file becomes one image-list
  entry. Images are renamed `<stem>.webp` and drawn no larger than 600 pixels on their longer side.

Three helper modules hold what several of these share. `Wrappers` has `Option`, for JavaScript's
`undefined`. `Seqs` has `Array.prototype.filter` and its laws. `Decimal` has `Number(digits)` and
`n.toString()` on naturals, with the round trip between them.

## Model

| member | source | states |
|---|---|---|
| Cart.CartState.constructor | features/cart/cartSlice.ts:18-20 | the cart starts with no items |
| Cart.CartState.AddToCart | features/cart/cartSlice.ts:26-28 | the payload becomes the new last item; the length grows by one and every earlier item stays in place |
| Cart.CartState.ClearRaffleItems | features/cart/cartSlice.ts:29-31 | the items become the filter of the old items; no item of the raffle is left and the length does not grow |
| Cart.ClearedHasNoItemOfRaffle | features/cart/cartSlice.ts:30 | no item of the cleared raffle survives |
| Cart.ClearKeepsOtherRaffles | features/cart/cartSlice.ts:30 | an item survives exactly when it was in the cart under another raffle, and such items keep their multiplicity |
| Cart.ClearKeepsOrder | features/cart/cartSlice.ts:30 | clearing a concatenation clears each part, so kept items keep their relative order |
| Cart.ClearUnchangedIff | features/cart/cartSlice.ts:30 | clearing leaves the cart as it was exactly when no item belongs to that raffle |
| Cart.ClearIdempotent | features/cart/cartSlice.ts:30 | clearing the same raffle twice equals clearing it once |
| Cart.ClearUndoesAdd | features/cart/cartSlice.ts:26-31 | adding an item and then clearing its raffle equals only clearing it |
| Drawings.IsDrawing | app/components/DrawingsTable/DrawingsTable.tsx:284-286 | the `raffleId`-property test holds exactly for drawing rows |
| Drawings.IsPrize | app/components/DrawingsTable/DrawingsTable.tsx:288-290 | the `drawingId`-property test holds exactly for prize rows, and exactly when the row is not a drawing |
| Drawings.CreateSubRow | app/components/DrawingsTable/DrawingsTable.tsx:177-194 | nothing for a non-drawing row; for a drawing row, the creating position is the next index and the template carries the parent's id as `drawingId`, with empty id, name, specifications and valuation |
| Drawings.CreateDrawing | app/components/DrawingsTable/DrawingsTable.tsx:319-323 | the drawing is appended after the unchanged previous list (an absent cache counts as empty); only its id changes, to the canonical digit string (no leading zero) whose value is the new length |
| Drawings.CreateDrawingId | app/components/DrawingsTable/DrawingsTable.tsx:321 | the new id is exactly the decimal `toString` of the previous length plus one |
| Drawings.CreateAfterDeleteRepeatsId | app/components/DrawingsTable/DrawingsTable.tsx:319-373 | ids are not unique: deleting "1" of ["1","2"] and creating gives a second drawing with id "2" |
| Drawings.DeleteUndoesCreateDrawing | app/components/DrawingsTable/DrawingsTable.tsx:319-373 | deleting the new id right after creating equals deleting that id alone |
| Drawings.ReplaceDrawing | app/components/DrawingsTable/DrawingsTable.tsx:351-353 | same length; exactly the entries with the updated id are replaced |
| Drawings.UpdateDrawing | app/components/DrawingsTable/DrawingsTable.tsx:349-355 | same length and same ids; entries whose id matches become the update, all others stay |
| Drawings.UpdateDrawingIdempotent | app/components/DrawingsTable/DrawingsTable.tsx:349-355 | updating twice with the same drawing equals updating once |
| Drawings.DeleteDrawing | app/components/DrawingsTable/DrawingsTable.tsx:369-374 | deleting never lengthens the list |
| Drawings.DeleteDrawingContents | app/components/DrawingsTable/DrawingsTable.tsx:371 | a drawing remains exactly when it was cached with another id, and keeps its multiplicity |
| Drawings.DeleteDrawingKeepsOrder | app/components/DrawingsTable/DrawingsTable.tsx:371 | deletion distributes over concatenation, so the rest stays in order |
| Drawings.DeleteAfterUpdateDrawing | app/components/DrawingsTable/DrawingsTable.tsx:349-374 | deleting after updating the same id equals deleting alone |
| Drawings.CreatePrize | app/components/DrawingsTable/DrawingsTable.tsx:386-394 | same drawing count; drawings whose id is the prize's `drawingId` get the prize appended to their prizes (missing `subRows` read as empty) and change nowhere else; other drawings are untouched |
| Drawings.SubRowTemplateJoinsParent | app/components/DrawingsTable/DrawingsTable.tsx:177-194 | saving the template started from a drawing row appends it to that drawing's prizes |
| Drawings.ReplacePrize | app/components/DrawingsTable/DrawingsTable.tsx:413-415 | same length; exactly the prizes with the updated id become the update |
| Drawings.UpdatePrize | app/components/DrawingsTable/DrawingsTable.tsx:407-421 | same drawing count; only the drawing named by `drawingId` changes, only in its prize list, where the matching prize is replaced; a drawing without `subRows` keeps none |
| Drawings.UpdatePrizeIdempotent | app/components/DrawingsTable/DrawingsTable.tsx:407-421 | updating a prize twice equals updating it once |
| Drawings.WithoutPrize | app/components/DrawingsTable/DrawingsTable.tsx:438 | an absent prize list stays absent and a present one stays present |
| Drawings.DeletePrize | app/components/DrawingsTable/DrawingsTable.tsx:434-442 | same drawing count and order; every drawing is unchanged except that its prize list is filtered |
| Drawings.DeletePrizeContents | app/components/DrawingsTable/DrawingsTable.tsx:438 | a prize remains under a drawing exactly when it was listed there with another id |
| Drawings.DeleteUndoesCreatePrize | app/components/DrawingsTable/DrawingsTable.tsx:386-441 | deleting a just-created prize leaves every drawing listing what deleting alone leaves |
| Drawings.DeleteAfterUpdatePrize | app/components/DrawingsTable/DrawingsTable.tsx:407-442 | deleting a prize after updating it equals deleting it alone |
| Decimal.ToDecimal | app/components/DrawingsTable/DrawingsTable.tsx:321 | `n.toString()` is a non-empty string of digits |
| Decimal.ValueOfToDecimal | app/components/DrawingsTable/DrawingsTable.tsx:321 | reading back the decimal string gives the number |
| Decimal.ToDecimalCanonical | app/components/DrawingsTable/DrawingsTable.tsx:321 | the decimal string has no leading zero except in "0" |
| Decimal.ToDecimalOfValue | app/admin/raffles/create/page.tsx:45 | a canonical digit string is the decimal string of its value (the other half of the round trip) |
| Decimal.ToDecimalInjective | app/admin/raffles/create/page.tsx:237 | different numbers have different decimal strings |
| RaffleCreate.DigitsOnly | app/admin/raffles/create/page.tsx:45 | the replacement leaves only digits |
| RaffleCreate.DigitsOnlyEmpty | app/admin/raffles/create/page.tsx:45 | nothing remains exactly when the input has no digit |
| RaffleCreate.ParseCurrency | app/admin/raffles/create/page.tsx:44-46 | the result is a natural, and 0 for input without digits |
| RaffleCreate.ParseCurrencyIgnoresNonDigits | app/admin/raffles/create/page.tsx:45 | a string and its digits alone read the same |
| RaffleCreate.ParseCurrencyDropsSeparator | app/admin/raffles/create/page.tsx:45 | inserting digit-free text (dots, spaces, symbols) anywhere changes nothing |
| RaffleCreate.ParseCurrencyReadsAmount | app/admin/raffles/create/page.tsx:44-46 | an amount written in decimal between digit-free prefix and suffix reads back as itself |
| RaffleCreate.MovedIsAMove | app/admin/raffles/create/page.tsx:213-215 | a move keeps length and multiset, puts the moved image at the destination, and keeps the others in relative order |
| RaffleCreate.MovedBack | app/admin/raffles/create/page.tsx:210-218 | dragging the image back to its source restores the list |
| RaffleCreate.HandleDragEnd | app/admin/raffles/create/page.tsx:210-218 | no destination leaves the list unchanged; otherwise the two splices give the move of source to destination |
| RaffleCreate.RemoveImage | app/admin/raffles/create/page.tsx:220-222 | exactly the given position is removed and the rest stays in order; an out-of-range index removes nothing |
| RaffleCreate.RemoveAfterMove | app/admin/raffles/create/page.tsx:210-222 | removing an image at its new position after a drag equals removing it at its old one |
| RaffleCreate.NormalizeName | app/admin/raffles/create/page.tsx:234 | the normalized name has no white space and is no longer than the name |
| RaffleCreate.NormalizeNameUnchanged | app/admin/raffles/create/page.tsx:234 | a name is left as it is exactly when it has no white space |
| RaffleCreate.NormalizeNameAppend | app/admin/raffles/create/page.tsx:234 | normalizing splits at any point outside a white-space run |
| RaffleCreate.NormalizeNameRun | app/admin/raffles/create/page.tsx:234 | a maximal run of white space becomes exactly one underscore |
| RaffleCreate.NormalizeNameIdempotent | app/admin/raffles/create/page.tsx:234 | normalizing twice equals normalizing once |
| RaffleCreate.ImageFilenames | app/admin/raffles/create/page.tsx:236-238 | one file name per image, the k-th being `<name>_<k+1>.webp` |
| RaffleCreate.ImageUrls | app/admin/raffles/create/page.tsx:240-242 | one URL per file name, in order, each `<name>/<file name>` |
| RaffleCreate.ImageFilenamesDistinct | app/admin/raffles/create/page.tsx:236-238 | no two images get the same file name |
| RaffleCreate.ImageUrlsDistinct | app/admin/raffles/create/page.tsx:236-242 | no two images get the same URL |
| RaffleCreate.DaysOrDefault | app/admin/raffles/create/page.tsx:505-533 | a number is taken as the offset; anything else falls back to the default |
| RaffleCreate.RaffleDates.constructor | app/admin/raffles/create/page.tsx:63-67 | no dates are set, the offsets are 2 and 30, and the invariant holds |
| RaffleCreate.RaffleDates.CloseDateEffect | app/admin/raffles/create/page.tsx:177-184 | with a draw date, the close date is the draw date minus the close offset; without one, nothing changes |
| RaffleCreate.RaffleDates.ExpirationDateEffect | app/admin/raffles/create/page.tsx:186-193 | with a draw date, the expiration is the draw date plus the expiration offset; without one, nothing changes |
| RaffleCreate.RaffleDates.SetGameDate | app/admin/raffles/create/page.tsx:177-193 | the invariant (the derived dates follow a set draw date) is kept; clearing the draw date keeps the derived dates |
| RaffleCreate.RaffleDates.SetDaysCloseDate | app/admin/raffles/create/page.tsx:177-184 | the offset is the input or 2, the invariant is kept, and the expiration side is untouched |
| RaffleCreate.RaffleDates.SetDaysExpirationDate | app/admin/raffles/create/page.tsx:186-193 | the offset is the input or 30, the invariant is kept, and the close side is untouched |
| RaffleCreate.DatesOrdered | app/admin/raffles/create/page.tsx:177-193 | with non-negative offsets the close date is not after the draw and the expiration not before it |
| RaffleCreate.RaffleDates.SaleWarningEffect | app/admin/raffles/create/page.tsx:195-208 | the notification is shown exactly when both instants are set and sale opens strictly before publication |
| RaffleCreate.RaffleDates.SetPublicationDateTime | app/admin/raffles/create/page.tsx:475-476 | publication becomes the picked instant, sale and the other dates stay, and the warning fires exactly when sale is set and strictly before the new publication |
| RaffleCreate.RaffleDates.SetSaleDateTime | app/admin/raffles/create/page.tsx:490-491 | sale becomes the picked instant, publication and the other dates stay, and the warning fires exactly when publication is set and strictly after the new sale |
| RaffleCreate.RaffleDates.PublishImmediately | app/admin/raffles/create/page.tsx:167-170 | publication becomes now, and the warning fires exactly when sale is set before now |
| RaffleCreate.RaffleDates.SellImmediately | app/admin/raffles/create/page.tsx:172-175 | sale becomes now, the warning fires exactly when publication is set after now, so never once publication is set no later than now |
| Middleware.Route | middleware.ts:4-21 | non-admin paths pass; admin paths redirect to `/login` without a truthy token and to `/unauthorized` for a non-Admin role; the answer is next exactly when the path is not admin or the token is truthy with role Admin |
| Middleware.Handle | middleware.ts:23-25 | unmatched paths pass untouched and matched ones get the middleware's answer |
| Middleware.MatchedPathsAreAdmin | middleware.ts:11-24 | every path the matcher selects passes the prefix test |
| Middleware.EmptyTokenIsNoToken | middleware.ts:5-18 | an empty cookie is treated as a missing one and redirects to `/login` |
| Middleware.AdministratorPath | middleware.ts:11-24 | the plain prefix test counts `/administrator` as admin, while the matcher does not route it |
| DigitInput.DigitList | app/components/AnimatedDigitInput/AnimatedDigitInput.tsx:18 | ten single digits, the i-th having value i |
| DigitInput.DigitListAscending | app/components/AnimatedDigitInput/AnimatedDigitInput.tsx:18 | the strip is in ascending order |
| DigitInput.AnimatedDigitInput.constructor | app/components/AnimatedDigitInput/AnimatedDigitInput.tsx:20 | the field starts with the `value` prop |
| DigitInput.AnimatedDigitInput.SyncValue | app/components/AnimatedDigitInput/AnimatedDigitInput.tsx:22-24 | a new prop overwrites the field |
| DigitInput.AnimatedDigitInput.HandleInputChange | app/components/AnimatedDigitInput/AnimatedDigitInput.tsx:26-36 | a single digit is stored, reported and followed by focus-next; empty clears and is reported without focus move; anything else changes nothing and fires nothing; the handler stores only "" or one digit |
| DigitInput.AnimatedDigitInput.HandleKeyDown | app/components/AnimatedDigitInput/AnimatedDigitInput.tsx:38-43 | Backspace on an empty field prevents the default and requests focus-previous; any other key or a non-empty field fires nothing |
| Dropzone.Stem | app/components/Dropzone/DropzoneButton.tsx:102 | the stem is a dot-free prefix of the name that ends at the first dot or at the end |
| Dropzone.StemBeforeDot | app/components/Dropzone/DropzoneButton.tsx:102 | a dot-free stem followed by a dot and anything is its own stem |
| Dropzone.WebpNameIdempotent | app/components/Dropzone/DropzoneButton.tsx:100-106 | renaming an already optimized image keeps its name |
| Dropzone.FitDimensions | app/components/Dropzone/DropzoneButton.tsx:74-89 | a wider image over 600 gets width 600, a taller or square one over 600 gets height 600; both sides within 600 are kept; no side grows, neither exceeds 600, and the aspect ratio is kept |
| Dropzone.OptimizeFile | app/components/Dropzone/DropzoneButton.tsx:54-112 | a non-image passes unchanged; an image resolves exactly when the encoder yields bytes, as `<stem>.webp` of type `image/webp` |
| Dropzone.HandleDrop | app/components/Dropzone/DropzoneButton.tsx:32-52 | files are added exactly when every optimization resolves; then one entry per file, in drop order, with id and url the object URL, `isNew` set, and the optimized file |

## Left out

- Dropzone.FitDimensions: the scaled side is computed in exact real arithmetic. Floating-point rounding and the integer truncation when the canvas size is set are not modelled.
- RaffleCreate.ParseCurrency: the result is an unbounded natural. JavaScript numbers lose precision above 2^53 and become `Infinity` for very long digit strings.
- RaffleCreate.HandleDragEnd: requires in-range source and destination indices when a destination is given. The drag-and-drop library reports only those. An out-of-range `splice` would insert `undefined`, which a typed list cannot hold.
- Middleware.Route: the role is an input. Decoding the JWT payload (base64 of the second segment plus `JSON.parse`) is not modelled, and neither is the exception a malformed token raises. The token's signature is never checked. A role that is not a string is modelled as an absent one; both differ from "Admin".
- Middleware.Handle: the matcher `/admin/:path*` is modelled as "/admin" or any path below "/admin/". Next.js path normalization is not modelled.
- Drawings.UpdatePrize: `{ ...prize, ...updatedPrize }` is modelled as `updatedPrize`, because the update carries every field of a prize. `{ ...drawing, subRows: undefined }` is modelled like an absent `subRows`.
- Drawings.WithoutPrize: `{ ...drawing, subRows: drawing.subRows?.filter(...) }` sets `subRows` to `undefined` when the list is absent, and the model keeps it absent. An own `subRows: undefined` key and a missing one are not distinguished.
- Drawings.DeletePrize: it rebuilds every drawing through `WithoutPrize`, so it shares that identification of an explicit `undefined` list with an absent one.
- Drawings: the react-query cache mechanics, the simulated API calls and delays, and the table's rendering and save/delete dispatch are not modelled. Only the updater functions and the guards are.
- RaffleCreate.RaffleDates: dates are integer day numbers. dayjs calendar arithmetic, time zones, `formatDateToDB` and the date pickers' own behaviour are not modelled. The publication and sale instants are integers, and the clock `new Date()` reads is the parameter `now`. `showNotification` is modelled as the boolean `notify`. The day-offset inputs are modelled as integers: Mantine's `NumberInput` can report a fractional number, which dayjs `subtract`/`add` then round to whole days, and the model does not capture that rounding. React runs an effect only when a dependency changes; the model runs it on every setter call, which differs only when a picker reports the same `Date` object again.
- The IVA split of the total value and the purchase totals (division by 1.19, `toFixed`) are not modelled: they are floating-point arithmetic.
- `formatCurrency` and the currency formatter hook are not modelled: they are `Intl.NumberFormat` output. No format/parse round trip is claimed.
- Network I/O is not modelled: raffle creation and upload, listing, login, the auth context and telemetry. `handleCreateRaffle` is modelled only through the names, file names and URLs it computes.
- Browser APIs are inputs of the model: file reading, image decoding, canvas drawing, WebP encoding and `URL.createObjectURL`. A `null` blob leaves the optimization pending forever, so nothing is added.
- DigitInput: the spinning animation and the ref forwarding are not modelled.
- Cart: immer's draft mechanics and redux-persist storage are not modelled.
