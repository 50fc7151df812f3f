# Amazon Price Tracker: tracked-product bookkeeping in Dafny

This project models the bookkeeping of the `AmazonPriceTracker` desktop application. The application keeps a list of tracked products. Each product is a record with these fields: name, URL, current price, lowest price, target price, last drop date, status and last-checked time.

The list changes in four ways:
- The add form validates its three fields and appends a record.
- The remove button drops every product whose name is among the selected rows.
- `check_price` re-prices one record. It keeps a running minimum and sets the status to "Target Reached!" or "Tracking". It raises a popup alert whenever the new price is at or below the target.
- The monitoring loop and the refresh button run `check_price` over the whole list, in list order.

Modules, one per concern:

- `Text` (`text.dfy`) models Python's `str.strip()`. The form applies it to every field before the emptiness test.
- `Products` (`product.dfy`) holds the record and the status.
  - `Float` is a Python float as the comparisons see it: finite, ±infinity or NaN.
  - `NewProduct` is the record the add form builds.
  - `Check` and `CheckAlert` are the per-record rule of `check_price`.
  - It also holds the target-price test, both as written and corrected (see Findings).
- `Catalog` (`catalog.dfy`) models the list as a value.
  - `Add` is the whole add request.
  - `KeepUnselected` is the remove filter.
  - `TickAll` and `TickAlerts` are one pass over the list.
  - `Rounds` is a run of monitoring passes.
  - It also holds the list invariant `WellFormed` (distinct URLs, positive targets, lowest ≤ current) and the lemmas about these functions.
- `PriceTracker` (`tracker.dfy`) holds the class `Tracker`.
  - Its field `products: seq<Product>` stands for `self.tracked_products`.
  - Its methods update that field step by step, as the source does.
  - Each method is proved equal to the matching `Catalog`/`Products` function. The `Catalog` lemmas (and the add, remove and monitor methods directly) show that `WellFormed` is kept.

Randomness, clocks and the GUI become parameters:
- A `Draw` holds the creation-time price, the lowest-price factor and the drop date.
- A `Sample` is either a new price with the drop-branch flag and its date stamp, or the message of a sampling exception.
- `parsed` is the result of `float()` on the stripped target text.
- `selection` holds the names of the selected tree rows.
- `confirmed` is the answer to the confirmation dialog.
- Time stamps are opaque strings.

The code is modelled as written:
- Alerts are not edge-triggered. Every check whose new price is at or below the target raises one.
- "Pending" is never stored as a status. It is only the tree's display default for a record without a status (PriceDropNotifier.py:465).
- Removal is by name, so every product with a selected name goes, including same-named products the user did not select.
- The "Removed N products" message counts selected rows, not the records actually removed.

## Model

| member | source | states |
|---|---|---|
| `Text.Strip` | PriceDropNotifier.py:224-226 | the result is a slice of the input with only whitespace outside it; it is empty iff the input is all whitespace; otherwise it neither starts nor ends with whitespace |
| `Products.InitialStatus` | PriceDropNotifier.py:260 | a new product is "Tracking" exactly when its price is above the target, and "Target Reached!" otherwise; for any positive target this add-time rule (line 260) gives "Target Reached!" exactly when the check-time rule `price <= target` (line 356) does |
| `Products.NewProduct` | PriceDropNotifier.py:246-262 | the new record carries the given name, URL, target, price, drop date and time stamp; its status follows the price-vs-target rule; under the source's random ranges its lowest price is positive and strictly below the current price |
| `Products.Check` | PriceDropNotifier.py:337-366 | name, URL and target never change; `last_checked` is always stamped; a sampled price becomes current; lowest becomes the minimum of old lowest and new price, so it never rises and ends at most current; the status is "Target Reached!" iff the price ≤ target, else "Tracking"; the last drop date changes only in the drop branch, to that day's date; a sampling exception changes only status (to Error with its message) and time stamp |
| `Products.LowestAtCreation` | PriceDropNotifier.py:257 | under the source's random ranges the recorded lowest price of a new product is positive and strictly below its current price |
| `Products.CheckAlert` | PriceDropNotifier.py:355-372 | a check raises a popup iff a price was sampled and it is at or below the target (iff the status became "Target Reached!"); the popup shows the updated name, price, target and last drop date |
| `Products.TargetAcceptedAsWritten` | PriceDropNotifier.py:232-238 | the target test as written: `float()` succeeded and the value is not `<= 0`, which accepts exactly the positive numbers and NaN |
| `Products.AcceptTarget` | PriceDropNotifier.py:232-238 | the corrected target test: accepts exactly the positive numbers (finite > 0 or +infinity) and accepts nothing the as-written test rejects |
| `Products.NaNTargetAcceptedAsWritten` | PriceDropNotifier.py:232-238 | as written, a NaN target passes validation; the add-time rule then says "Target Reached!" and every check at the same price says "Tracking" with no alert |
| `Products.AcceptedTargetRulesAgree` | PriceDropNotifier.py:260 | for any accepted target, the add-time rule (line 260) and the check-time rule (line 356) give a price "Target Reached!" in exactly the same cases |
| `Products.CheckKeepsGoodRecord` | PriceDropNotifier.py:349-353 | checking keeps a positive target and lowest ≤ current; after a sampled price, lowest ≤ current holds whatever the record held before |
| `Catalog.Add` | PriceDropNotifier.py:223-279 | blank URL, name or target text → "fill in all fields"; else a target rejected by the corrected test `Products.AcceptTarget` (not a positive number, NaN included; see Findings) → "must be a positive number"; else a URL already tracked (exact match) → "already being tracked"; every rejection leaves the list unchanged; success appends exactly one record at the end, untouched predecessors before it; the record is `NewProduct` of the stripped name and URL, the parsed target, the draws and the time stamp, so it carries the drawn price and drop date, the time stamp and, under the source's random ranges, a lowest price that is positive and strictly below the current one; its status is "Tracking" iff price > target; an alert is raised iff the status is "Target Reached!"; distinct URLs, positive targets and lowest ≤ current are kept |
| `Catalog.KeepUnselected` | PriceDropNotifier.py:293 | a product is kept iff it was in the list and its name is not selected; the list never grows |
| `Catalog.KeepUnselectedConcat` | PriceDropNotifier.py:293 | filtering distributes over concatenation, so the kept products keep their original order |
| `Catalog.KeepUnselectedCount` | PriceDropNotifier.py:293 | each record occurs as often as before if its name is unselected and not at all otherwise, so same-named products go together |
| `Catalog.KeepUnselectedLength` | PriceDropNotifier.py:293 | the list keeps its length iff no product carries a selected name |
| `Catalog.KeepUnselectedWellFormed` | PriceDropNotifier.py:293 | removal keeps distinct URLs, positive targets and lowest ≤ current |
| `Catalog.TickAll` | PriceDropNotifier.py:437-438 | a pass keeps the length, and position k holds product k re-priced by its own sample |
| `Catalog.AlertsOf` | PriceDropNotifier.py:355-358 | one check raises at most one popup, and one exactly when a price was sampled that is at or below the target |
| `Catalog.TickAlerts` | PriceDropNotifier.py:437-438 | a pass raises no more popups than there are products |
| `Catalog.TickAlertsNone` | PriceDropNotifier.py:437-438 | a pass raises no popup at all iff no product's sampled price is at or below its target |
| `Catalog.TickAlertsSnoc` | PriceDropNotifier.py:437-438 | checking one more product at the end of the list adds exactly its popups at the end |
| `Catalog.TickAlertsPrefix` | PriceDropNotifier.py:437-438 | the popups of the first i+1 checks of a pass are those of the first i followed by those of check i |
| `Catalog.ReachedAlerts` | PriceDropNotifier.py:356-358 | no more alerts than products, and none iff no product is at "Target Reached!" |
| `Catalog.TickAlertsAreReached` | PriceDropNotifier.py:437-438 | the popups of a pass are exactly one per product the pass left at "Target Reached!", in list order |
| `Catalog.TickAllWellFormed` | PriceDropNotifier.py:437-438 | a pass keeps distinct URLs, positive targets and lowest ≤ current |
| `Catalog.Rounds` | PriceDropNotifier.py:436-438 | any number of monitoring passes keeps the list length |
| `Catalog.RoundAlerts` | PriceDropNotifier.py:436-438 | one popup sequence per monitoring round, the first being the popups of a pass over the starting list |
| `Catalog.RoundsStep` | PriceDropNotifier.py:436-438 | a run of rounds is its first pass followed by the remaining rounds on the re-priced list, for the list and for the popups |
| `Catalog.RoundsWellFormed` | PriceDropNotifier.py:436-438 | any run of monitoring rounds keeps distinct URLs, positive targets and lowest ≤ current |
| `Catalog.RoundsSnoc` | PriceDropNotifier.py:436-438 | one more monitoring round is one more pass over the current list |
| `Catalog.RoundsRunningMinimum` | PriceDropNotifier.py:351-353 | across any run of rounds each product keeps name, URL and target; its lowest price is at most its starting lowest and every price sampled for it, and equals one of them |
| `PriceTracker.Tracker.constructor` | PriceDropNotifier.py:481-488 | the list starts as the stored list, or empty when the file is absent or unreadable |
| `PriceTracker.Tracker.IsTracked` | PriceDropNotifier.py:241-244 | the duplicate scan finds a match iff some tracked product has exactly that URL |
| `PriceTracker.Tracker.AddProduct` | PriceDropNotifier.py:223-279 | outcome and new list are those of `Catalog.Add` on the old list; the list invariant is kept |
| `PriceTracker.Tracker.RemoveProducts` | PriceDropNotifier.py:281-305 | no selection → error and no change; not confirmed → no change; otherwise the list becomes `KeepUnselected` of the old list and the reported count is the number of selected rows; the invariant is kept |
| `PriceTracker.Tracker.CheckPrice` | PriceDropNotifier.py:337-366 | only entry i changes, to `Check` of its old value, and the popup raised is `CheckAlert` of it |
| `PriceTracker.Tracker.Tick` | PriceDropNotifier.py:437-438 | the list becomes `TickAll` of the old list and the popups are `TickAlerts` of it, in list order (so the invariant is kept by `Catalog.TickAllWellFormed`) |
| `PriceTracker.Tracker.RefreshPrices` | PriceDropNotifier.py:323-335 | an empty list gives "No products to refresh" and no change; otherwise one pass with its popups |
| `PriceTracker.Tracker.Monitor` | PriceDropNotifier.py:435-448 | after the given rounds the list is `Rounds` of the old list and the popups are `RoundAlerts` of it, one sequence per round; the invariant is kept |

## Findings

| source | as written | input that shows it | evidently intended | confidence | as-written member | corrected member |
|---|---|---|---|---|---|---|
| PriceDropNotifier.py:232-238 | after `float()`, the only range test is `target_price <= 0`, which is false for NaN | target text `nan` (also `NaN`) | reject it like any other text that is not a positive number | medium, not executed | `Products.TargetAcceptedAsWritten`, `Products.NaNTargetAcceptedAsWritten` | `Products.AcceptTarget` |

With a NaN target, the add-time rule `current_price > target_price` is false, so the new product is stored as "Target Reached!" and an alert pops up. Every later check computes `new_price <= target_price`, also false, so the product shows "Tracking" and never alerts again. The model's tracker uses the corrected test.

## Left out

- Catalog.Add: rejects a NaN target, which the source accepts. The model uses the corrected test listed under Findings.
- PriceTracker.Tracker.AddProduct: rejects a NaN target, which the source accepts, because it is proved equal to `Catalog.Add`.
- All tkinter code is not modelled because it is presentation: widgets, styles, tree rendering and row highlighting, message boxes, the flashing alert popup and status-bar texts. Alerts appear only as `Alert` values.
- The background thread, `time.sleep(1800)`, `root.after` and the `join(timeout=1)` shutdown are concurrency and timing. `Monitor` covers the finite run of rounds executed before monitoring stops. A GUI-thread add or remove interleaved with a pass is not modelled.
- Saving to `tracked_products.json` is file I/O and is not modelled. Loading appears only as the constructor's optional stored list. The shape of the JSON is not checked.
- `webbrowser.open_new_tab` is a foreign call and is not modelled.
- `random.uniform`, `random.randint` and `random.random` become the `Draw` and `Sample` parameters. The fluctuation formulas are float arithmetic and are not modelled: the new price lies within ±5% of the old current price, or 10–30% below it in the drop branch. A sampled price is therefore unconstrained.
- Current and lowest prices are exact reals, with no float rounding, overflow or NaN. Only the target, which comes from user text, can be an infinity or NaN.
- `float()` string parsing is a library call and enters only as its result, `parsed`. `${:,.2f}` formatting is not modelled.
- `datetime.now()` time stamps are opaque string parameters.
- Only an exception raised while sampling is modelled. It changes the status to Error and the time stamp. An exception raised later in `check_price`, after some fields were already written, is not modelled. Examples are a call to `show_alert` from the background thread, or a malformed record loaded from the file.
- Product records are values in a sequence. Python's shared references to the same dict are not modelled. No code path of the core depends on them.
- Tkinter's conversion of Treeview cell values, such as numeric-looking names, is not modelled. The selection is taken as the list of row names.
- `Text.IsSpace` lists exactly the characters for which Python's `str.isspace()` is true. No other Unicode processing is modelled.
