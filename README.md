# SportX storefront: cart and wishlist state

This project models the client-side state of the SportX sport-shop pages
(`app.js`). The model covers two collections, each kept under its own
browser-storage key.

- **Cart.** An ordered sequence of lines. A line holds a name, size, color,
  whole-number price, quantity, and an opaque id and image. Lines are merged by
  their variant key (name, size, color).
- **Wishlist.** An ordered sequence of entries (name, price, image), keyed by
  name alone.

Every handler reads its key fresh, changes the loaded sequence, and writes it
back. The model follows that pattern:

- `Store` models a storage slot. Reading a slot that is absent or corrupt gives
  the empty sequence.
- `Cart` holds the value-level model: the totals (left folds, like
  `reduce`), the first-match search, add-or-merge, and the "+" and "−" effects.
  Its lemmas state what the operations promise:
  - merging raises the quantity of the matching line only;
  - appending grows the cart by exactly one line;
  - variant keys stay distinct;
  - quantities stay at least one;
  - the totals change by exactly the step;
  - "−" undoes "+".
- `CartPage` holds a `CartStore` class whose methods are the handlers:
  add, the "+" and "−" buttons, and "finish order". Each is tied to the
  function in `Cart` that specifies it. This module also holds the loop that
  accumulates the displayed total, and the payloads built by the three
  "Add to cart" buttons.
- `Wishlist` holds the membership test, the removal filter and the toggle, with
  their lemmas. These include: toggling twice from a list without the name
  restores it, removal keeps the remaining order, and names stay distinct.
  A `WishlistStore` class holds the heart-button and "×" handlers.
- `Storefront` models four smaller decisions. They are the product-grid
  visibility test, the order-status filter, the search suggestions, and the
  hero slider's wrap-around. The grid test keeps its quirk: once "shoes",
  "clothes" or "accessories" is checked, every category matches.

The model follows the code as written:

- The "−" handler tests `qty > 1` and otherwise removes the line. So a line
  whose quantity is 0 or negative is also removed, not only a line at 1.
- The merge adds `payload.qty || 1`. An appended payload is stored exactly as
  given. Every caller passes quantity 1, so the "at least one" invariant holds
  only for such payloads. `Cart.AddKeepsQtyPositive` requires a positive
  payload quantity for this reason.
- The toggle and the "×" button remove every entry with the name, not just one.
- Out-of-range indices are not guarded in the code, so "+" and "−" require a
  valid index. The model invents no behaviour for a bad index.
- "Finish order" on an empty cart writes nothing. A corrupt cart key therefore
  stays corrupt.

## Model

| member | source | states |
|---|---|---|
| `Store.Load` | app.js:9-15 | a stored array reads back as itself; an absent or unparsable key reads as the empty cart |
| `Store.Save` | app.js:17-19 | a write leaves the key holding a serialised array |
| `Store.LoadSaveRoundTrip` | app.js:9-19 | what is saved is what the next load returns |
| `Store.LoadNeverFails` | app.js:30-36 | a load is empty exactly when the key holds no array or an empty one; it never fails |
| `Cart.TotalCount` | app.js:21-23 | the header count; with every quantity at least one it is at least the number of lines |
| `Cart.TotalPrice` | app.js:25-27 | the cart price; never negative when every quantity is positive |
| `Cart.TotalCountConcat` | app.js:21-23 | the item count of two carts joined is the sum of their counts |
| `Cart.TotalPriceConcat` | app.js:25-27 | the price of two carts joined is the sum of their prices |
| `Cart.EmptyCartTotals` | app.js:608-615 | the emptied cart has count 0 and price 0 |
| `Cart.FindVariant` | app.js:394-398 | returns the first position whose (name, size, color) matches, or -1 exactly when none does |
| `Cart.QtyOrOne` | app.js:401 | the merged amount: the payload quantity when it is non-zero, and 1 when it is 0 |
| `Cart.AddOrMerge` | app.js:390-404 | grows the cart by at most one line; earlier lines keep every field except quantity; afterwards a line with the payload's key exists |
| `Cart.AddMergesMatchingLine` | app.js:394-402 | with a first match at i, only line i changes, by the payload's quantity or by 1 when that is 0; the length is unchanged |
| `Cart.AddAppendsNewVariant` | app.js:403-404 | with no match, the result is the old cart followed by the payload |
| `Cart.AddKeepsVariantsDistinct` | app.js:393-404 | no two lines share (name, size, color) after an add if none did before |
| `Cart.AddKeepsQtyPositive` | app.js:400-404 | a payload of positive quantity keeps every quantity at least one |
| `Cart.AddTotalCount` | app.js:400-404 | the item count rises by the merged amount, or by the payload's quantity when appended |
| `Cart.AddSameVariantTwice` | app.js:394-401 | adding the same variant twice with quantity 1 gives one line of quantity 2, never two lines |
| `Cart.AddOtherSizeNewLine` | app.js:394-404 | the same name and color with another size gets a second line |
| `Cart.ShoeScenario` | app.js:390-404 | one "Shoe A" (M, red, 1000) added again gives one line of 2 costing 2000 |
| `Cart.Incremented` | app.js:351-353 | "+" raises only line i's quantity, by one; nothing else changes |
| `Cart.IncrementTotalCount` | app.js:351-353 | "+" adds exactly 1 to the item count |
| `Cart.IncrementTotalPrice` | app.js:552-554 | "+" adds exactly the line's unit price to the total |
| `Cart.IncrementKeepsInvariants` | app.js:351-353 | "+" keeps quantities positive and keys distinct |
| `Cart.Decremented` | app.js:336-342 | "−" lowers only line i by one when its quantity exceeds 1; otherwise removes line i, shortens the cart by one and keeps the other lines in order |
| `Cart.DecrementKeepsQtyPositive` | app.js:535-541 | "−" leaves every quantity at least one if it was before |
| `Cart.DecrementKeepsVariantsDistinct` | app.js:336-342 | "−" keeps keys distinct |
| `Cart.DecrementTotalCount` | app.js:337-341 | on a line of positive quantity, "−" lowers the count by exactly 1, whether or not the line is removed |
| `Cart.DecrementTotalPrice` | app.js:536-540 | on a line of positive quantity, "−" lowers the total by that line's unit price |
| `Cart.DecrementUndoesIncrement` | app.js:336-354 | "−" straight after "+" on a line of positive quantity restores the cart |
| `CartPage.CartStore.Add` | app.js:390-406 | the stored cart becomes the add-or-merge of the loaded cart; distinct keys and positive quantities are kept |
| `CartPage.CartStore.Plus` | app.js:350-354 | the stored cart becomes the incremented cart; the count grows by exactly 1 |
| `CartPage.CartStore.Minus` | app.js:534-542 | the stored cart becomes the decremented cart; positive quantities are kept and the count drops by 1 |
| `CartPage.CartStore.FinishOrder` | app.js:607-615 | an empty cart is refused and the key is left untouched; otherwise the key holds the empty cart and the count is 0 |
| `CartPage.ListingTotal` | app.js:305-308 | the running total accumulated over the listed lines equals the cart price |
| `CartPage.ProductPagePayload` | app.js:435-446 | quantity 1, timestamp id, the given title, price and image; the active size, or "M" when none is active; the active color, or "default" when none is active |
| `CartPage.CardPayload` | app.js:473-481 | quantity 1, the given title, price and image, key (title, "-", "-"); the card's id when it has one, otherwise the current time |
| `CartPage.WishlistPayload` | app.js:810-818 | quantity 1, the entry's name, price and image, key (name, "-", "-") |
| `CartPage.CardThenWishlistMerge` | app.js:809-818 | a product added from its card and then from the wishlist ends on one line of quantity 2 |
| `CartPage.PayloadsKeepQtyPositive` | app.js:438-446 | every "Add to cart" payload keeps all quantities positive |
| `Wishlist.Contains` | app.js:733-735 | true exactly when some entry carries the name |
| `Wishlist.WithoutName` | app.js:757 | never longer than the list; no remaining entry carries the name |
| `Wishlist.WithoutNameMembers` | app.js:825 | the remaining entries are exactly the entries of other names |
| `Wishlist.WithoutNameShortens` | app.js:757 | removal keeps the length exactly when the name is absent |
| `Wishlist.WithoutNameConcat` | app.js:825 | removal distributes over concatenation, so the surviving order is kept |
| `Wishlist.WithoutAbsentName` | app.js:757 | removing an absent name changes nothing |
| `Wishlist.RemoveDistinctName` | app.js:823-826 | in a list of distinct names, removing the name at k drops exactly entry k |
| `Wishlist.WithoutNameKeepsDistinct` | app.js:824-826 | removal keeps names distinct |
| `Wishlist.Toggled` | app.js:755-765 | after the toggle the name is present exactly when it was absent before |
| `Wishlist.ToggleAbsentAppends` | app.js:758-764 | toggling an absent name appends exactly one entry |
| `Wishlist.TogglePresentRemoves` | app.js:756-757 | toggling a present name is the name filter, so the other entries keep their order; every entry of that name and nothing else is dropped; the list gets shorter |
| `Wishlist.ToggleKeepsDistinct` | app.js:755-765 | the toggle keeps names distinct |
| `Wishlist.ToggleTwiceRestores` | app.js:754-766 | two toggles from a list without the name restore the list and its order |
| `Wishlist.WishlistStore.Toggle` | app.js:754-767 | the stored list becomes the toggled list; the card shows liked exactly when the name was absent before; distinct names are kept |
| `Wishlist.WishlistStore.Remove` | app.js:823-826 | the stored list becomes the list without the name, and no entry of that name remains |
| `Storefront.CategoryOk` | app.js:677 | nothing checked, the card's own category checked, or a broad name checked each lets the card pass |
| `Storefront.CardVisible` | app.js:671-680 | a card is shown exactly when it passes all three tests: a shown card passes the category test and the slider, and under an active filter other than "all" has a non-empty gender equal to it; conversely a card that passes the gender test (no button, an "all" button, or its own non-empty gender), the category test and the slider is shown |
| `Storefront.BroadCategoryMatchesAll` | app.js:677 | once "shoes", "clothes" or "accessories" is checked, every category passes |
| `Storefront.NarrowCategoryExact` | app.js:677 | otherwise a non-empty selection passes exactly the checked categories |
| `Storefront.NoFilterShowsAll` | app.js:660-680 | with no active button, nothing checked and no slider, every card shows |
| `Storefront.OverPriceHidden` | app.js:678-680 | a card above the slider's maximum is hidden |
| `Storefront.StatusClass` | app.js:888-896 | the first of delivered, shipped, processing, cancelled on the badge, in that order of precedence; "other" exactly when none is |
| `Storefront.OrderDisplay` | app.js:884-902 | cards without a badge are left alone; "all" shows every badged card; any other selection shows a badged card exactly when it equals the card's status |
| `Storefront.CancelledFilterExact` | app.js:888-901 | "cancelled" shows a card exactly when it is cancelled and carries no earlier status |
| `Storefront.OtherFilterExact` | app.js:888-901 | "other" shows exactly the cards with none of the four statuses |
| `Storefront.Lower` | app.js:228 | lower-casing keeps the length and lowers each character |
| `Storefront.Includes` | app.js:233 | true exactly when the query occurs contiguously somewhere in the text |
| `Storefront.Matching` | app.js:232-233 | only list items whose lower-cased text includes the query |
| `Storefront.MatchingConcat` | app.js:232-233 | the matches of two lists joined are the matches of the first followed by those of the second, so list order is kept |
| `Storefront.MatchingAllMatch` | app.js:232-233 | when every item matches, the matches are the whole list in order |
| `Storefront.SpaceMatchesBlank` | app.js:228-233 | a text with a space in it matches the blank query |
| `Storefront.BlankQueryCapped` | app.js:232-234 | when more than six items each contain a space, a blank query shows exactly the first six |
| `Storefront.BlankQueryShowsFirstSix` | app.js:202-234 | all seven built-in suggestions contain a space, so a blank query shows the first six of them |
| `Storefront.MatchingComplete` | app.js:233 | every matching item is among the matches |
| `Storefront.Suggest` | app.js:227-234 | nothing for an empty input; otherwise a prefix of the matches in list order, of length six or the number of matches when fewer |
| `Storefront.SuggestShowsAllFewMatches` | app.js:232-234 | with at most six matches, every matching item is suggested |
| `Storefront.NextSlide` | app.js:181 | the next slide is in range: one on, or back to the first after the last |
| `Storefront.Advance` | app.js:180-183 | no ticks leave the slide alone; after any tick the slide is in range |
| `Storefront.AdvanceClimbs` | app.js:181 | before the last slide each tick moves exactly one slide on |
| `Storefront.AdvanceCompose` | app.js:180-183 | a + b ticks are a ticks followed by b ticks |
| `Storefront.FullRoundReturns` | app.js:180-183 | after as many ticks as there are slides, the slider is back where it started |

## Left out

- DOM rendering, `innerHTML` templates, class toggling, event wiring, `scrollIntoView`, `alert` and the redirect after checkout: these are presentation only.
- Re-rendering of the drawer, the cart page and the badges after each change: no state changes there beyond a fresh load.
- `JSON.parse` and `JSON.stringify`: a slot is modelled as absent, corrupt or an array. A key that parses to a non-array truthy value (which the code would return as is) is not modelled. A falsy parsed value is read as absent, as `|| []` does.
- The regex price parsing and `Number(...)`: prices are taken as already parsed whole numbers. Prices that are `NaN` or fractional are not modelled.
- `Date.now()` ids and image URLs are opaque inputs. The current time is a parameter.
- A payload whose `qty` is missing (`undefined`) is not a separate case: the merge treats it as 0, as `||` does, and every caller passes 1.
- The checkout summary's `sum +=` loop (app.js:626-630) is the same loop as the drawer's; `CartPage.ListingTotal` models both.
- `title.trim()`, reading the active size or color from the DOM, and missing DOM elements that make a handler return early: these are inputs of the payload functions.
- The sort handler (app.js:705-717): it reorders DOM nodes by dataset strings coerced to numbers.
- The `setInterval` autoplay timer itself, the dot clicks, scroll and hover handlers, and the mega-menu table.
- `Storefront.Lower`: lower-cases ASCII letters only, not full Unicode `toLowerCase`. Characters whose lower-case form has a different length are not modelled.
- Integer width: JavaScript numbers are IEEE doubles, so `qty++`, `+=` and the `reduce` totals agree with the model's unbounded integers only below 2^53.
- `CartPage.CartStore.Plus` and `CartPage.CartStore.Minus` require an index inside the cart: the code does not guard an out-of-range index and would throw.
