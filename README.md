# Ryzer transactions page and purchase dialog, modelled in Dafny

This project models the logic of the two client components of the Ryzer
asset-trading front end:

- the **transaction-history page** (`app/transactions/page.tsx`): the search
  box that filters the fetched transactions by asset name or buyer,
  case-insensitively; the two summary cards (total volume, a left fold over
  `total_price` with a missing price counted as 0, and the transaction count);
  and the title of each transaction card (the asset name, or `Asset #<id>`);
- the **purchase dialog** (`components/buy-asset-dialog.tsx`): the displayed
  total `price * quantity`, the quantity box's `parseInt(...) || 1` fallback,
  and the submit handler, which clears the error, rejects a blank name, then a
  quantity outside `[1, supply]`, sets `loading`, posts the request with the
  trimmed name, and on failure records the server's message (or "Purchase
  failed") and clears `loading`; on success it sets `success`, and a delayed
  callback resets the name, the quantity and `success`.

Modules, one per source file plus the JavaScript built-ins they use:

- `JsString` (`js_string.dfy`): `toLowerCase` (ASCII letters), `includes`
  (with a proof that it agrees with the positional definition of a substring),
  `trim` (the ECMAScript white-space and line-terminator set), and the
  decimal rendering of an integer in a template literal (with a parse-back
  round trip, so distinct ids render distinctly).
- `TransactionHistory` (`transaction_history.dfy`): pure functions over
  `seq<Transaction>`; `asset_name`, `total_price` and `price` are `Option`s
  and amounts are integers.
- `BuyAssetDialog` (`buy_asset_dialog.dfy`): pure functions for the total, the
  parse fallback, the two validation checks and the failure message, and a
  class `Dialog` with the component's state fields `buyerName`, `quantity`,
  `loading`, `error`, `success`, whose methods are the event handlers. The
  fetch is not performed: its outcome (`Responded(ok, errorField)` or
  `Threw(...)`) is a parameter. The handler is split at its `await` into
  `Submit` (validation and building the request) and `Settle` (handling the
  outcome); `HandleSubmit` runs both.
- `Wrappers` (`wrappers.dfy`): `Option`.

Behaviour of the code that the model reproduces and that a reader may not
expect:

- The search looks only at the raw `asset_name` and the buyer, not at the
  displayed title: a transaction without a name cannot be found by typing its
  placeholder title `Asset #<id>` (`PlaceholderTitleNotSearched`).
- The query itself is not trimmed: a query of spaces is non-empty and filters.
- On success the handler never clears `loading`; only the failure path does.
  After the reset callback `loading` is still true (`SuccessfulPurchase`).
- Because of the `|| 1` fallback the quantity field is never 0 (the class
  invariant `Dialog.Valid`, established by the constructor and preserved by
  every handler), but negative quantities are stored and are then
  rejected by the range check.
- Failures are plain strings, not a typed failure kind; a thrown error with an
  empty message leaves `error` empty.

## Model

| member | source | states |
|---|---|---|
| `TransactionHistory.MatchesQuery` | app/transactions/page.tsx:37-39 | the filter predicate: the lower-cased asset name, when present, or the lower-cased buyer includes the lower-cased query |
| `TransactionHistory.MatchesQueryIffOccurs` | app/transactions/page.tsx:37-39 | a transaction matches iff the lower-cased query occurs at some index of its lower-cased asset name (when present) or of its lower-cased buyer |
| `TransactionHistory.KeepMatching` | app/transactions/page.tsx:36-40 | `transactions.filter(...)` with the filter predicate, as a recursion over the list; its properties are those of `KeepMatchingSpec` |
| `TransactionHistory.KeepMatchingSpec` | app/transactions/page.tsx:36-40 | the filtered list is an order-preserving subsequence of the input; each transaction occurs in it exactly as often as in the input when it matches the query and not at all otherwise |
| `TransactionHistory.SearchResults` | app/transactions/page.tsx:35-44 | an empty query shows the full list unchanged; any query shows a subsequence of the list |
| `TransactionHistory.SearchMembership` | app/transactions/page.tsx:36-40 | with a non-empty query a transaction is shown iff it is in the list and its lower-cased name or buyer contains the lower-cased query |
| `TransactionHistory.KeepMatchingAppend` | app/transactions/page.tsx:36-40 | filtering two lists put together gives the two filtered lists put together |
| `TransactionHistory.KeepMatchingCaseInsensitive` | app/transactions/page.tsx:38-39 | the filter depends on the query only through its lower-cased form |
| `TransactionHistory.SearchCaseInsensitive` | app/transactions/page.tsx:35-44 | two queries equal up to letter case show the same transactions |
| `TransactionHistory.SearchUpperCaseQuery` | app/transactions/page.tsx:38-39 | the query typed in capitals shows the same transactions |
| `TransactionHistory.NamelessFoundOnlyByBuyer` | app/transactions/page.tsx:38 | a transaction with no asset name is shown iff its buyer contains the query |
| `TransactionHistory.PlaceholderTitleNotSearched` | app/transactions/page.tsx:36-40 | the placeholder title is not searched: a nameless transaction whose lower-cased buyer does not contain "asset #" has a title starting "Asset #" but is not found by the query "Asset #" |
| `TransactionHistory.PriceOrZero` | app/transactions/page.tsx:71 | `total_price || 0`: a present price is taken as is, a missing one counts 0 |
| `TransactionHistory.FoldVolume` | app/transactions/page.tsx:71 | the `reduce` left fold from any start value equals that value plus the sum of the prices |
| `TransactionHistory.TotalVolume` | app/transactions/page.tsx:71 | the volume card is the sum of `total_price`, missing prices counted as 0 |
| `TransactionHistory.SumOfPricesAppend` | app/transactions/page.tsx:71 | the volume of two lists put together is the sum of their volumes |
| `TransactionHistory.TotalVolumeSnoc` | app/transactions/page.tsx:71 | one more transaction adds exactly its price, or 0 when it has none |
| `TransactionHistory.TotalVolumeNonNegative` | app/transactions/page.tsx:71 | without negative prices the volume is not negative |
| `TransactionHistory.Render` | app/transactions/page.tsx:71-72 | the count card is the length of the whole fetched list and the volume card its price sum, whatever the query; the shown list is a subsequence no longer than the count, and the whole list for an empty query |
| `TransactionHistory.CardsIndependentOfQuery` | app/transactions/page.tsx:71-72 | any two queries give the same two cards |
| `TransactionHistory.DisplayTitle` | app/transactions/page.tsx:190 | the card title is never empty |
| `TransactionHistory.TitleIsName` | app/transactions/page.tsx:190 | a present, non-empty asset name is the title |
| `TransactionHistory.DisplayTitleNamesAsset` | app/transactions/page.tsx:190 | a nameless transaction's title is "Asset #" followed by the id's numeral (a minus sign first for a negative id), whose digits read back as the id's magnitude |
| `TransactionHistory.PlaceholderTitlesDistinguishAssets` | app/transactions/page.tsx:190 | two nameless transactions with the same placeholder title have the same asset id |
| `JsString.ToLower` | app/transactions/page.tsx:38-39 | `toLowerCase`, one character at a time; its properties are those of `ToLowerSpec` |
| `JsString.ToLowerSpec` | app/transactions/page.tsx:38-39 | lower-casing keeps the length, maps each character by itself, and leaves no upper-case ASCII letter |
| `JsString.ToLowerIdempotent` | app/transactions/page.tsx:38-39 | lower-casing twice is lower-casing once |
| `JsString.ToLowerOfToUpper` | app/transactions/page.tsx:38-39 | a string and its upper-cased form lower-case alike |
| `JsString.Contains` | app/transactions/page.tsx:38-39 | `includes`: the query is a prefix of some suffix of the string; `ContainsIffOccurs` relates it to the positional definition |
| `JsString.ContainsIffOccurs` | app/transactions/page.tsx:38-39 | `includes` holds iff the query occurs at some index of the string |
| `JsString.ContainsNotLonger` | app/transactions/page.tsx:38-39 | a string includes only queries no longer than itself |
| `JsString.IsJsWhiteSpace` | components/buy-asset-dialog.tsx:53 | the characters `trim` removes: tab, line feed, vertical tab, form feed, carriage return, space, no-break space, the Unicode space separators, the line and paragraph separators and the byte order mark |
| `JsString.TrimStart` | components/buy-asset-dialog.tsx:53 | drops the leading white space; its properties are those of `TrimStartSpec` |
| `JsString.TrimEnd` | components/buy-asset-dialog.tsx:53 | drops the trailing white space; its properties are those of `TrimEndSpec` |
| `JsString.TrimStartSpec` | components/buy-asset-dialog.tsx:53 | trimming the start leaves the suffix after the leading white space, which starts with a non-white character when not empty |
| `JsString.TrimEndSpec` | components/buy-asset-dialog.tsx:53 | trimming the end leaves the prefix before the trailing white space, which ends with a non-white character when not empty |
| `JsString.Trim` | components/buy-asset-dialog.tsx:75 | the trimmed name neither starts nor ends with white space |
| `JsString.TrimIsSlice` | components/buy-asset-dialog.tsx:75 | the trimmed name is a contiguous piece of the typed name with only white space cut off either side |
| `JsString.TrimEmptyIff` | components/buy-asset-dialog.tsx:53 | a name trims to "" iff it is all white space |
| `JsString.TrimIdempotent` | components/buy-asset-dialog.tsx:75 | trimming the trimmed name changes nothing |
| `JsString.NatToDecimal` | app/transactions/page.tsx:190 | a non-negative id renders as a non-empty string of digits with no leading zero |
| `JsString.IntToDecimal` | app/transactions/page.tsx:190 | an id renders as a non-empty string that starts with '-' iff the id is negative |
| `JsString.DecimalRoundTrip` | app/transactions/page.tsx:190 | reading back the rendered digits gives the number |
| `JsString.IntToDecimalInjective` | app/transactions/page.tsx:190 | different ids render differently |
| `BuyAssetDialog.TotalPrice` | components/buy-asset-dialog.tsx:43 | one token costs the unit price; with a positive price the total is positive iff the quantity is |
| `BuyAssetDialog.TotalPriceStep` | components/buy-asset-dialog.tsx:43 | one more token adds exactly the unit price to the total |
| `BuyAssetDialog.TotalPriceBounds` | components/buy-asset-dialog.tsx:43 | for an accepted quantity and non-negative price the total lies between one token's price and the whole supply's price |
| `BuyAssetDialog.QuantityFromInput` | components/buy-asset-dialog.tsx:166 | the stored quantity is never 0; a non-zero parse is kept as is (negatives included); NaN and 0 (the falsy results) become 1 |
| `BuyAssetDialog.QuantityRangeMessage` | components/buy-asset-dialog.tsx:59 | the range message: the fixed text followed by the supply's decimal numeral |
| `BuyAssetDialog.QuantityRangeMessageNamesSupply` | components/buy-asset-dialog.tsx:59 | for a non-negative supply, the range message is the fixed text followed by digits only, and those digits read back as the supply |
| `BuyAssetDialog.ValidationError` | components/buy-asset-dialog.tsx:53-61 | a blank name always gives "Please enter your name"; any message is that one or the range message for the supply; no message only when the trimmed name is non-empty and 1 <= quantity <= supply |
| `BuyAssetDialog.ValidationMessagesDistinct` | components/buy-asset-dialog.tsx:53-61 | the quantity message differs from the name message and determines the supply it names |
| `BuyAssetDialog.ValidationAcceptsIff` | components/buy-asset-dialog.tsx:53-61 | the form passes iff the name has a non-white character and 1 <= quantity <= supply |
| `BuyAssetDialog.BlankNameCheckedFirst` | components/buy-asset-dialog.tsx:53-56 | a blank name gives "Please enter your name" whatever the quantity |
| `BuyAssetDialog.QuantityOutOfRange` | components/buy-asset-dialog.tsx:58-61 | with a usable name, a quantity outside [1, supply] gives the message naming the supply |
| `BuyAssetDialog.Succeeded` | components/buy-asset-dialog.tsx:81 | a reply whose body was read is a success iff it is ok; anything thrown is a failure |
| `BuyAssetDialog.FailureMessage` | components/buy-asset-dialog.tsx:81-93 | a non-ok reply gives its non-empty `error` field, else "Purchase failed" (never empty); a thrown `Error` gives exactly its message (possibly empty), any other thrown value "An error occurred" |
| `BuyAssetDialog.Dialog.constructor` | components/buy-asset-dialog.tsx:36-40 | the initial state: empty name, quantity 1, not loading, no error, no success |
| `BuyAssetDialog.Dialog.SetBuyerName` | components/buy-asset-dialog.tsx:149 | the name field takes the typed text, nothing else changes, and the invariant `Valid` is kept |
| `BuyAssetDialog.Dialog.SetQuantityFromInput` | components/buy-asset-dialog.tsx:166 | the quantity field takes the parse fallback, keeps the invariant that it is never 0, and nothing else changes |
| `BuyAssetDialog.Dialog.Submit` | components/buy-asset-dialog.tsx:48-76 | a rejected form sets the check's message, leaves `loading` and sends nothing; an accepted one ends with the error cleared, `loading` set and a request with the asset id, the quantity and the trimmed (never empty) name |
| `BuyAssetDialog.Dialog.Settle` | components/buy-asset-dialog.tsx:79-95 | an ok reply sets `success` and leaves `loading` and `error`; any failure sets the failure message and clears `loading` |
| `BuyAssetDialog.Dialog.HandleSubmit` | components/buy-asset-dialog.tsx:48-96 | the whole handler: validation failures change only `error`; otherwise the request is sent and the outcome is handled as in `Settle` |
| `BuyAssetDialog.Dialog.ResetAfterSuccess` | components/buy-asset-dialog.tsx:86-91 | the reset gives name "", quantity 1, `success` false, and leaves `loading` and `error` |
| `BuyAssetDialog.SuccessfulPurchase` | components/buy-asset-dialog.tsx:48-91 | typing "  Alice " and 3 and succeeding posts the name "Alice" and quantity 3; after the reset `loading` is still set |
| `BuyAssetDialog.FailedPurchase` | components/buy-asset-dialog.tsx:48-95 | a valid form whose reply is not ok with `error` "Sold out" ends with that message shown, `loading` cleared and `success` unset |

## Left out

- The purchase engine and ledger on the server (supply decrement, atomicity, locking, idempotent append): their code is not part of this model, so nothing of them is modelled.
- Network I/O: `fetch`, `response.json()`, `async`/`await` and the try/catch plumbing; the fetched list is a parameter and the purchase outcome is the `FetchOutcome` parameter.
- React machinery: `useState`/`useEffect` scheduling, rendering, the loading skeleton and the empty-state messages. `Render` states the page at rest, after the filter effect has run.
- Date and number formatting (`toLocaleString`, `toFixed`): locale-dependent library calls.
- Projected rental income (components/buy-asset-dialog.tsx:44-45): floating-point percentage arithmetic used only for display.
- The `setTimeout` delay and the `onSuccess` callback into the parent: only the state reset the callback performs is modelled (`ResetAfterSuccess`).
- `Number.parseInt` itself (leading white space, signs, a `0x` prefix, precision of large numbers): its result is the `ParsedInt` parameter of `QuantityFromInput`.
- `JsString.ToLower` (and so `JsString.ToLowerSpec` and the search lemmas built on it): lower-cases the ASCII letters only, so it differs from the page on non-ASCII text, in both directions. JavaScript's `toLowerCase` also maps the other Unicode letters ("É" to "é"), so the page finds case variants the model misses. It also applies context rules: a capital sigma ending a word becomes the final sigma "ς". So the page does not find an asset named "ΑΣ" with the query "Σ" ("ας" does not include "σ"), while the model, which leaves both unchanged, finds it.
- JavaScript numbers (IEEE-754 doubles) are modelled as unbounded integers throughout: `asset_id`, `supply`, `quantity`, `price * quantity` and the volume sum are exact here, where the page loses precision beyond 2^53 and overflows to `Infinity` near 1.8e308.
- `JsString.NatToDecimal`: renders every natural number as its plain digits. JavaScript's number-to-string conversion switches to exponent form from 1e21 ("1e+21"), and a double holds integers exactly only up to 2^53, so larger ids render differently on the page than here.
- `JsString.IntToDecimal`: the same limits as `NatToDecimal` apply to the magnitude after the minus sign.
- `JsString.IsJsWhiteSpace`: `trim` is modelled on characters of the Basic Multilingual Plane, which holds every character JavaScript trims; UTF-16 code units are not distinguished from characters.
- `BuyAssetDialog.TotalPrice`: prices and quantities are integers, so the floating-point rounding of `asset.price * quantity` for fractional prices is not modelled.
- `TransactionHistory.TotalVolume`: `total_price` is an integer; a `0`, `NaN` or `null` value and a missing one all count 0 in the source, and the model only has present integers and missing values.
- A JSON `error` field that is not a string (a number, an object) is not modelled; `errorField` is an optional string.
- The `price` field (app/transactions/page.tsx:216-220) is only displayed; it is carried in the datatype and no property is stated about it.
