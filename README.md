# Storefront cart and carousels, modelled in Dafny

This project models the client-side behaviour of a small storefront page, as
written in `assets/js/script.js`. It has three parts.

- **The cart.** Clicking "add" on a product card derives an identity for the
  product from the card's visible text. A repeated product gains one unit on
  its existing line; a new one is appended with quantity 1. The list is then
  saved to the browser's storage slot, and the count badge is refreshed to
  "(N)", or to a hidden "(0)" when the cart is empty.
- **The banner slider.** Its "next" and "previous" buttons wrap around the
  slides, and exactly one slide and one indicator are marked active at a time.
- **The mobile product slider.** Its buttons stop at the first and the last
  item, and each button is disabled exactly when clicking it would do nothing.

The modules are:

- `Wrappers`: `Option`.
- `JsText`: the JavaScript text operations the cart relies on:
  - the ECMAScript whitespace set, used both by `String.prototype.trim` and by
    the regular-expression class `\s`;
  - `trim()`;
  - `replace(/\s+/g, '-')`;
  - the decimal rendering of a non-negative integer inside a template string.
- `Carts`: cart lines, cards and the badge as values; the specification
  functions of the cart; the classes `Storage` (the durable slot) and `Cart`.
- `Sliders`: the classes `BannerSlider` and `SimpleMobileSlider`. Each slide,
  indicator or item is reduced to its "active" CSS-class flag, held in an
  `array<bool>` that the methods update in place.
- `CartExamples`: worked cases. Each is stated for every card of a given shape:
  - a product named like "Widget" and priced like "100 ₽";
  - two products clicked a, b, a;
  - the same two words with different spacing between and around them;
  - a reload of the page.

## Model

| member | source | states |
|---|---|---|
| JsText.IsSpace | assets/js/script.js:75-79 | the whitespace set of `trim()` and `\s`: space, tab, line feed and carriage return are in it; ASCII letters, digits and '-' are not |
| JsText.Trim | assets/js/script.js:75 | the result of `trim()` starts and ends with a non-whitespace character, or is empty |
| JsText.TrimSplits | assets/js/script.js:75 | every string is its trimmed form between a whitespace-only prefix and a whitespace-only suffix: `trim()` removes whitespace at the ends and nothing else |
| JsText.TrimSurrounded | assets/js/script.js:75 | trimming text that is already trimmed, padded by whitespace on both sides, gives back that text |
| JsText.TrimIdempotent | assets/js/script.js:75 | trimming trimmed text changes nothing, so trimming twice is trimming once |
| JsText.FoldSpaces | assets/js/script.js:79 | `replace(/\s+/g, '-')` never lengthens the text |
| JsText.FoldSpacesNoSpace | assets/js/script.js:79 | no whitespace survives the replacement |
| JsText.FoldSpacesOfWord | assets/js/script.js:79 | text without whitespace is returned unchanged |
| JsText.FoldSpacesRun | assets/js/script.js:79 | a maximal whitespace run, however long, becomes one '-' |
| JsText.FoldSpacesAppend | assets/js/script.js:79 | folding distributes over a concatenation whose left part does not end in whitespace |
| JsText.DecimalString | assets/js/script.js:99 | a number rendered in the badge is a non-empty string of decimal digits, without a leading zero unless the number is zero |
| JsText.DecimalRoundTrip | assets/js/script.js:99 | reading the rendered digits back gives the number |
| Carts.PriceElement | assets/js/script.js:76-77 | a price element is found iff the card has a current or a new price; the current price wins when both exist |
| Carts.ProductId | assets/js/script.js:74-80 | a product identity never contains whitespace |
| Carts.ProductIdOfPricedCard | assets/js/script.js:74-80 | with a price element, the identity is the folded trimmed name, '-', and the folded price the line stores |
| Carts.ProductIdOfUnpricedCard | assets/js/script.js:74-87 | without a price element, the identity ends in "-0", but the stored price is "0 ₽", so the two fallbacks differ |
| Carts.ProductPrice | assets/js/script.js:82-87 | the stored price is trimmed: the current price wins over the new price, and with neither the price is "0 ₽" |
| Carts.FindIndex | assets/js/script.js:54 | the index of the first line with the id, or -1 exactly when no line has it |
| Carts.Reduce | assets/js/script.js:90 | the left fold over the quantities yields the starting value plus the sum of the quantities |
| Carts.SumAppend | assets/js/script.js:89-91 | the item count of two concatenated carts is the sum of their counts |
| Carts.SumUpdate | assets/js/script.js:89-91 | changing one line's quantity changes the count by exactly the difference |
| Carts.BadgeFor | assets/js/script.js:93-106 | the badge is visible iff the total is positive; its text is "(", decimal digits, ")"; a non-positive total gives "(0)" |
| Carts.BadgeShowsTotal | assets/js/script.js:98-99 | the badge's digits read back as the total |
| Carts.LoadCart | assets/js/script.js:26-34 | a stored list reads back as exactly the lines that were saved; an absent or undecodable slot gives the empty cart |
| Carts.Added | assets/js/script.js:54-67 | an add never removes a line and adds at most one |
| Carts.AddedContains | assets/js/script.js:54-67 | after an add the product is in the cart, and the lines already there keep their ids in their order |
| Carts.AddedExisting | assets/js/script.js:54-58 | a repeated id changes only the first line with that id, which gains exactly one unit; order and length are kept |
| Carts.AddedNew | assets/js/script.js:59-67 | a new id appends one line with the raw name, the stored price and quantity 1 |
| Carts.AddedRaisesTotal | assets/js/script.js:54-67 | every add raises the item count by exactly one |
| Carts.AddedKeepsIdsUnique | assets/js/script.js:54-67 | adding never creates a second line with an id already present |
| Carts.AddAll | assets/js/script.js:45-67 | a sequence of clicks never removes a line and adds at most one line per click |
| Carts.AddAllInvariant | assets/js/script.js:45-67 | any sequence of clicks from an id-unique cart keeps ids unique and raises the count by the number of clicks |
| Carts.Storage.constructor | assets/js/script.js:28 | the slot holds what the page finds under the key 'cart' |
| Carts.Cart.constructor | assets/js/script.js:1-34 | the cart starts with the stored lines, or empty when nothing decodes; the badge is rendered |
| Carts.Cart.GetTotalItems | assets/js/script.js:89-91 | the total is the sum of the quantities of the current lines |
| Carts.Cart.SaveCartToStorage | assets/js/script.js:36-43 | the slot receives the current lines, or keeps its old content when the write fails |
| Carts.Cart.UpdateCartDisplay | assets/js/script.js:93-110 | a present badge shows the current total; an absent badge stays absent |
| Carts.Cart.AddToCart | assets/js/script.js:45-72 | the lines become the specified add, the count rises by one, unique ids stay unique, and the slot and the badge follow |
| CartExamples.FoldGap | assets/js/script.js:79 | one whitespace run between two words becomes one '-' |
| CartExamples.TrimPadded | assets/js/script.js:75 | padding around two words is trimmed and the gap between them is kept |
| CartExamples.SpacingVariantsCollide | assets/js/script.js:74-80 | two whitespace-free words separated by any non-empty whitespace run, with any whitespace padding, give the same identity as the two words separated by one space |
| CartExamples.SameCardTwice | assets/js/script.js:54-67 | two clicks on one card of an empty cart give one line with quantity 2 |
| CartExamples.WordPrice | assets/js/script.js:74-87 | a price like "100 ₽" is already trimmed, and its part of the identity is "100-₽" |
| CartExamples.WordPricedCard | assets/js/script.js:74-87 | a card named "Widget" and priced "100 ₽" has the identity "Widget-100-₽" and stores "100 ₽" |
| CartExamples.SmallBadge | assets/js/script.js:98-100 | a single-digit total shows as "(d)" on a visible badge |
| CartExamples.AddedXYX | assets/js/script.js:54-67 | adding ids x, y, x (x differs from y) to an empty cart gives the lines x with quantity 2, then y with quantity 1 |
| CartExamples.BadgeOfThree | assets/js/script.js:98-100 | a cart of three items shows a visible "(3)" badge |
| CartExamples.TwoProductsThenRepeat | assets/js/script.js:45-100 | clicks a, b, a give two lines in first-add order with quantities 2 and 1, and the badge reads "(3)" |
| Sliders.ClearFlags | assets/js/script.js:185-186 | every active mark is removed |
| Sliders.MarkOnly | assets/js/script.js:430 | exactly the flag at the given position is set |
| Sliders.NextIndex | assets/js/script.js:194 | the next slide is in range and wraps from the last to the first |
| Sliders.PrevIndex | assets/js/script.js:199 | the previous slide is in range and wraps from the first to the last |
| Sliders.NextPrevInverse | assets/js/script.js:193-201 | "previous" undoes "next", and "next" undoes "previous" |
| Sliders.NextTimesIsModular | assets/js/script.js:193-196 | k clicks on "next" advance k slides modulo the slide count, so n clicks return to the start |
| Sliders.BannerSlider.constructor | assets/js/script.js:159-173 | the slider starts on slide 0 with exactly slide 0 and indicator 0 active |
| Sliders.BannerSlider.ShowSlide | assets/js/script.js:184-191 | exactly the slide and the indicator at the index are active, and the index becomes current |
| Sliders.BannerSlider.NextSlide | assets/js/script.js:193-196 | the current slide advances with wrap-around and is the only one shown |
| Sliders.BannerSlider.PrevSlide | assets/js/script.js:198-201 | the current slide goes back with wrap-around and is the only one shown |
| Sliders.StepBack | assets/js/script.js:434 | "previous" moves back one item unless already at the first |
| Sliders.StepForward | assets/js/script.js:435 | "next" moves forward one item unless already at the last |
| Sliders.ButtonsFor | assets/js/script.js:421-427 | "previous" is disabled iff on the first item, "next" iff on the last |
| Sliders.ButtonsMatchSteps | assets/js/script.js:421-435 | both steps keep the index in range, and a button is disabled exactly when clicking it does nothing |
| Sliders.ForwardTimesStops | assets/js/script.js:435 | k clicks on "next" advance k items but stop at the last one |
| Sliders.SimpleMobileSlider.constructor | assets/js/script.js:383-419 | the slider starts at item 0; when the navigation is built (only over more than one item), only item 0 is active and the buttons match it; otherwise the item flags are as in the markup |
| Sliders.NavDisabledWhenStuck | assets/js/script.js:421-435 | on a slider with navigation, each button is disabled exactly when clicking it would leave the index where it is |
| Sliders.SimpleMobileSlider.UpdateButtons | assets/js/script.js:421-427 | the buttons reflect the index; without navigation nothing happens |
| Sliders.SimpleMobileSlider.ShowCurrent | assets/js/script.js:429-432 | only the current item is active, and the buttons are refreshed |
| Sliders.SimpleMobileSlider.Prev | assets/js/script.js:434 | the index steps back and stays in range, and built buttons keep matching it; at the first item nothing changes, otherwise the view follows |
| Sliders.SimpleMobileSlider.Next | assets/js/script.js:435 | the index steps forward and stays in range, and built buttons keep matching it; at the last item nothing changes, otherwise the view follows |

## Left out

- Browser storage and JSON are abstracted. The slot holds the decoded list, or
  None when the key is absent or its text does not parse. The source does not
  validate what it decodes: a stored value that parses to something other than
  an array would make later calls throw. The model assumes a list of lines.
- A stored quantity that is not a number is left out; the model's quantities
  are integers. In the source, `+= 1` on a string quantity would concatenate.
  JavaScript numbers lose precision above 2^53; the model's integers do not.
- Console logging, the DOM queries themselves, the "added" notification, and
  the button animation with its timers are left out. The animation disables
  pointer events on the clicked button for 2000 ms, so a repeat click on that
  button within that window does not reach `addToCart`. This only delays
  repeat clicks: time is not modelled, and every sequence of adds stays
  reachable.
- The event wiring (`bindEvents`, click listeners) is left out. Each handler is
  a method call in the model.
- A card without a name element, or a button outside any product card, makes
  the source throw. The model's `Card` always has a name.
- `Carts.Cart.SaveCartToStorage`: a failed write (quota, private mode) is a
  `writable` parameter rather than an exception from the environment.
- `Sliders.BannerSlider.constructor` requires at least one slide and an
  indicator for every slide. With no slides, or with fewer indicators than
  slides, `showSlide` in the source throws on the missing element.
- Indicator dots beyond the last slide are left out as targets of `showSlide`.
  Clicking one would make the source throw on the missing slide;
  `ShowSlide` requires the index to be a slide.
- `Sliders.SimpleMobileSlider.constructor`: the viewport-width test of
  `tryInit` is a parameter, `withNav`. It may be true only with more than one
  item, as in the source. The constructor does what `tryInit` and `createNav`
  do on first build: it marks only item 0 active, creates the buttons and
  refreshes them. The button markup, `destroy` and the resize listener are left
  out. In the source, `destroy` does not reset `index`, so a slider rebuilt
  after a resize marks item 0 active while its index keeps the old value; the
  model does not capture this.
- `ProductCards` (the "compare" toggle on each product card and its
  notification), `Promotions`, `Navigation` and `MobileMenu` are not part of
  this model. Neither is `App`, which only constructs the components on page
  load.
- Cart lines are values in a sequence field. The source updates a line object
  in place, but no other reference to that object exists, so the value update
  is equivalent.
