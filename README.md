# Sweet shop front end — a Dafny model

This project models the decision logic of a small single-page shop front
end written in React and TypeScript. The shop sells sweets and collects
hygiene reviews. It has a browsable catalog with search and a category
filter, a detail page per sweet, a page with review statistics and a review
form, and an owner page for adding sweets and changing prices. All data
comes from a remote service through cached queries. A successful mutation
invalidates the cached read it affects.

One module per source file:

| module | source file | form |
|---|---|---|
| `Domain` | `backend.d.ts` | datatypes: `Sweet`, `Review`, `Category`, `UserRole`, `Principal`, plus `Option` and `Reply`; the `isAuthenticated` test both pages compute |
| `Strings` | the JavaScript string methods the code calls | `toLowerCase` (ASCII letters only), `includes`, `trim` |
| `App` | `App.tsx` | class `AppState` (current page, selected index), function `Rendered` |
| `Queries` | `hooks/useQueries.ts` | query functions and the invalidation table as functions; class `QueryCache` holding a key → freshness map |
| `Catalog` | `pages/CatalogPage.tsx` | functions and lemmas |
| `SweetCard` | `components/SweetCard.tsx` | functions and lemmas |
| `SweetDetail` | `pages/SweetDetailPage.tsx` | functions and lemmas |
| `HygieneStats` | `components/HygieneStats.tsx` | functions and lemmas |
| `RatingStars` | `components/RatingStars.tsx` | functions and lemmas |
| `HygieneReviewForm` | `components/HygieneReviewForm.tsx` | decision functions; class `ReviewForm` (rating, text) |
| `HygieneReviewList` | `components/HygieneReviewList.tsx` | functions and lemmas |
| `OwnerCatalog` | `pages/OwnerCatalogPage.tsx` | gate and checks as functions; class `OwnerForms` (the two form records) |

Inputs from outside the front end are parameters:

- The remote actor is `Option<Remote>`. A `Remote` holds the service's answers to the three reads.
- Each mutation receives the service's answer to that call as `reply`.
- The signed-in identity is `Option<Principal>`.
- The owner forms receive the result of `BigInt(...)` on the typed price as `parsedPrice`.

The form classes call `QueryCache.Run`, so "no mutation is sent" is stated as the cache staying unchanged.

## Model

| member | source | states |
|---|---|---|
| `Strings.Lower` | src/frontend/src/pages/CatalogPage.tsx:25-26 | lower-casing keeps the length and maps each character through `LowerChar` |
| `Strings.LowerChar` | src/frontend/src/pages/CatalogPage.tsx:25-26 | ASCII capitals move to lower case, every other character is kept, and no capital is produced |
| `Strings.LowerIdempotent` | src/frontend/src/pages/CatalogPage.tsx:25-26 | lower-casing twice equals lower-casing once |
| `Strings.Includes` | src/frontend/src/pages/CatalogPage.tsx:25-26 | a query that is a prefix of the text is included, and an included query is never longer than the text |
| `Strings.IncludesIffOccurs` | src/frontend/src/pages/CatalogPage.tsx:25-26 | `includes` holds iff the query is a prefix of some suffix, i.e. occurs at some position |
| `Strings.IncludesEmpty` | src/frontend/src/pages/CatalogPage.tsx:25-26 | the empty query occurs in every string |
| `Strings.IsWhitespace` | src/frontend/src/components/HygieneReviewForm.tsx:36 | space, tab, line feed and carriage return are whitespace, and no ASCII letter or digit is |
| `Strings.SkipLeading` | src/frontend/src/components/HygieneReviewForm.tsx:36 | the position found is the first one at or after the start that holds no whitespace: everything skipped is whitespace, and the character found is not |
| `Strings.SkipTrailing` | src/frontend/src/components/HygieneReviewForm.tsx:36 | the end found never passes the start; everything cut off after it is whitespace, and the character before it is not |
| `Strings.Trim` | src/frontend/src/components/HygieneReviewForm.tsx:36 | the result is no longer than the input and has no whitespace at either end |
| `Strings.TrimCutsOnlyWhitespace` | src/frontend/src/components/HygieneReviewForm.tsx:36 | the trimmed text is a contiguous slice of the input; everything before and after it is whitespace, and a non-empty slice starts and ends on non-whitespace |
| `Strings.TrimEmptyIffAllWhitespace` | src/frontend/src/components/HygieneReviewForm.tsx:36 | trimming gives the empty string iff every character is whitespace |
| `Strings.TrimIdempotent` | src/frontend/src/components/HygieneReviewForm.tsx:36 | trimming twice equals trimming once |
| `App.Rendered` | src/frontend/src/App.tsx:26-32 | every current page mounts exactly one component; it belongs to that page, and the detail page receives the selected index |
| `App.AppState.constructor` | src/frontend/src/App.tsx:13-14 | the app starts on the home page with index 0 |
| `App.AppState.NavigateTo` | src/frontend/src/App.tsx:16-22 | the page always becomes the argument; the selected index changes iff an index is supplied |
| `Queries.KeyNamesDistinct` | src/frontend/src/hooks/useQueries.ts:9-50 | the three reads use three distinct keys |
| `Queries.QueryFn` | src/frontend/src/hooks/useQueries.ts:10-54 | without an actor the two list reads give `[]` and the role read rejects with "Actor not available"; with an actor each read passes on the service's answer for its key unchanged: the sweets, the reviews or the role on success, the service's message on failure; a resolved read has its key's shape |
| `Queries.ReplyFor` | src/frontend/src/hooks/useQueries.ts:12-53 | the service's answer for a key is passed on unchanged: its data in that key's shape on success, its message on failure |
| `Queries.OptionsFor` | src/frontend/src/hooks/useQueries.ts:14-56 | a read is enabled iff an actor exists and is not being fetched; only the role read disables retries |
| `Queries.EnabledReadUsesActor` | src/frontend/src/hooks/useQueries.ts:10-55 | a read that is enabled has an actor, so it never takes the no-actor fallback and passes on the service's answer for its key |
| `Queries.Invalidates` | src/frontend/src/hooks/useQueries.ts:40-86 | each mutation names exactly one key: `reviews` iff a review, `sweets` iff a catalog change, and never `callerUserRole` |
| `Queries.Settle` | src/frontend/src/hooks/useQueries.ts:36-82 | without an actor every mutation rejects with "Actor not initialized"; otherwise it settles as the service answered |
| `Queries.MarkStale` | src/frontend/src/hooks/useQueries.ts:41-85 | the given keys become stale, and every other key keeps its freshness |
| `Queries.AfterMutation` | src/frontend/src/hooks/useQueries.ts:40-86 | a failed mutation leaves every key's freshness as it was; a successful one makes a key stale iff the mutation invalidates it or it already was; no key is added or removed |
| `Queries.MutationIsolation` | src/frontend/src/hooks/useQueries.ts:31-88 | after any mutation the role key is unchanged; a review leaves `sweets` as it was and a catalog change leaves `reviews` as it was; a failure changes nothing; a success marks its own key stale |
| `Queries.QueryCache.constructor` | src/frontend/src/hooks/useQueries.ts:33 | the shared client starts with every key fresh and with nothing sent |
| `Queries.QueryCache.Run` | src/frontend/src/hooks/useQueries.ts:31-88 | the result is `Settle`; the service call is logged only when an actor exists; the freshness becomes `AfterMutation` of the old freshness, i.e. invalidation happens on success only |
| `Catalog.SearchIgnoresQueryCase` | src/frontend/src/pages/CatalogPage.tsx:24-26 | a query matches the same sweets as its lower-cased form |
| `Catalog.Matches` | src/frontend/src/pages/CatalogPage.tsx:24-31 | a matching sweet is admitted by the category filter and its name or description is at least as long as the query; with an empty query the category alone decides |
| `Catalog.Filter` | src/frontend/src/pages/CatalogPage.tsx:23-32 | every kept sweet matches, and the result is no longer than the catalog |
| `Catalog.FilteredSweets` | src/frontend/src/pages/CatalogPage.tsx:20-21 | before the catalog loads the list is empty |
| `Catalog.FilterIsSubsequence` | src/frontend/src/pages/CatalogPage.tsx:23-32 | the filtered list is an order-preserving subsequence of the catalog |
| `Catalog.FilterCount` | src/frontend/src/pages/CatalogPage.tsx:23-32 | a sweet is kept iff it is in the catalog and matches (the name or description contains the query, ignoring case, and the category filter admits it); every copy of a matching sweet is kept |
| `Catalog.EmptySearchKeepsAll` | src/frontend/src/pages/CatalogPage.tsx:24-29 | an empty query with `all` keeps the whole catalog unchanged |
| `Catalog.FilterIdempotent` | src/frontend/src/pages/CatalogPage.tsx:23-32 | filtering the filtered list again with the same settings changes nothing |
| `Catalog.FindIndexByName` | src/frontend/src/pages/CatalogPage.tsx:107 | the result is -1 iff no sweet has the name; otherwise it is the first position holding that name |
| `Catalog.OriginalIndex` | src/frontend/src/pages/CatalogPage.tsx:107 | with the catalog loaded the index is -1 or a position holding a sweet of that name, and never -1 for a sweet in the catalog; without the catalog it is the filtered position |
| `Catalog.ShownCardIndex` | src/frontend/src/pages/CatalogPage.tsx:106-107 | each shown card's `originalIndex` is in bounds and is the first position with its name; with unique names it holds exactly that sweet |
| `Catalog.CardNavigation` | src/frontend/src/pages/CatalogPage.tsx:112 | clicking a card always opens the detail page with an index supplied |
| `Catalog.OpenedCardShowsItsSweet` | src/frontend/src/pages/CatalogPage.tsx:106-113 | opening a shown card mounts the detail page at an index where the detail page finds a sweet with that name, and with unique names the same sweet |
| `Catalog.Sections` | src/frontend/src/pages/CatalogPage.tsx:83-117 | the spinner shows iff loading and the error message iff there is an error; "no sweets found" and the grid show only once loading has finished without error, the first for an empty list and the second otherwise |
| `Catalog.SettledPageShowsOneResult` | src/frontend/src/pages/CatalogPage.tsx:97-117 | a page that has finished loading without error shows exactly one of "no sweets found" and the grid |
| `Catalog.CategoryOptionsComplete` | src/frontend/src/pages/CatalogPage.tsx:35-43 | the options are `all` followed by the six categories, pairwise distinct, each category present and each labelled as on its card |
| `SweetCard.CategoryLabelsDistinct` | src/frontend/src/components/SweetCard.tsx:12-22 | every category has a non-empty label, and no two categories share one |
| `SweetCard.CategoryLabel` | src/frontend/src/components/SweetCard.tsx:12-22 | every category's badge text is non-empty and starts with a capital letter |
| `SweetCard.ClickHandler` | src/frontend/src/components/SweetCard.tsx:26-51 | the image area and the button both run the card's `onClick`; the text between them has no handler |
| `SweetDetail.ViewFor` | src/frontend/src/pages/SweetDetailPage.tsx:18-42 | spinner iff loading; otherwise the sweet is found iff there is no error, the catalog is present and the index is in bounds, and it is exactly `sweets[sweetIndex]` |
| `SweetDetail.CategoryLabel` | src/frontend/src/pages/SweetDetailPage.tsx:44-54 | the page's own label for every category equals the catalog card's label |
| `SweetDetail.Targets` | src/frontend/src/pages/SweetDetailPage.tsx:29-111 | only the spinner has no buttons, and every back or browse button leads to the catalog |
| `HygieneStats.StatsOf` | src/frontend/src/components/HygieneStats.tsx:9-18 | a missing or empty list gives average 0 and count 0; otherwise count is the length and average × count is the sum of the ratings |
| `HygieneStats.Reduce` | src/frontend/src/components/HygieneStats.tsx:15 | the left-to-right `reduce` fold returns its starting accumulator plus the sum of the ratings, so from 0 it computes the sum |
| `HygieneStats.SumBounds` | src/frontend/src/components/HygieneStats.tsx:15 | ratings in `[lo, hi]` sum to between `lo·n` and `hi·n` |
| `HygieneStats.AverageBounds` | src/frontend/src/components/HygieneStats.tsx:14-16 | if every rating lies in `[lo, hi]`, so does the average of a non-empty list |
| `HygieneStats.SumRemove` | src/frontend/src/components/HygieneStats.tsx:15 | removing one review removes exactly its rating from the sum |
| `HygieneStats.SumPermutation` | src/frontend/src/components/HygieneStats.tsx:15 | reordering the reviews does not change the sum |
| `HygieneStats.StatsOrderIndependent` | src/frontend/src/components/HygieneStats.tsx:14-18 | count and average do not depend on the order of the reviews |
| `HygieneStats.SentinelIsDistinct` | src/frontend/src/components/HygieneStats.tsx:9-18 | with ratings of at least 1, the average is 0 iff there are no reviews |
| `HygieneStats.SumAtLeast` | src/frontend/src/components/HygieneStats.tsx:15 | ratings of at least `lo` sum to at least `lo·n` |
| `HygieneStats.DashIffNoReviews` | src/frontend/src/components/HygieneStats.tsx:40 | the dash is shown iff there are no reviews; otherwise the average is shown |
| `HygieneStats.AverageTextFor` | src/frontend/src/components/HygieneStats.tsx:40 | the dash shows iff the count is 0; otherwise the figure is the average |
| `HygieneStats.CaptionSingularIffOne` | src/frontend/src/components/HygieneStats.tsx:53 | the caption is singular iff there is exactly one review |
| `HygieneStats.CountCaption` | src/frontend/src/components/HygieneStats.tsx:53 | "Customer Review" iff the count is 1, "Customer Reviews" otherwise |
| `RatingStars.Stars` | src/frontend/src/components/RatingStars.tsx:26-28 | one star per value of `[1..5]`, in order |
| `RatingStars.StarFor` | src/frontend/src/components/RatingStars.tsx:27-28 | the star keeps its value; it is filled iff its value is at most the rating, never both filled and partial, and highlighted iff its value is at most half a star above the rating |
| `RatingStars.Highlighted` | src/frontend/src/components/RatingStars.tsx:45 | a filled or a partial star is drawn in the highlight colour, and a star that is neither is not |
| `RatingStars.FiveStarsInOrder` | src/frontend/src/components/RatingStars.tsx:26 | exactly five stars with values 1 to 5 in order |
| `RatingStars.StarFlags` | src/frontend/src/components/RatingStars.tsx:27-45 | star v is filled iff v ≤ rating, partial iff v − 0.5 ≤ rating < v, and highlighted iff v − 0.5 ≤ rating |
| `RatingStars.AtMostOnePartial` | src/frontend/src/components/RatingStars.tsx:28 | no two stars are partial |
| `RatingStars.HighlightedPrefix` | src/frontend/src/components/RatingStars.tsx:27-45 | the highlighted stars form a prefix of the five |
| `RatingStars.CountOfPrefix` | src/frontend/src/components/RatingStars.tsx:45 | a row highlighted on exactly its first k stars counts k highlighted stars |
| `RatingStars.WholeRating` | src/frontend/src/components/RatingStars.tsx:27-28 | a whole rating r in 0..5 highlights exactly r stars, fills exactly the first r, and makes none partial |
| `RatingStars.Click` | src/frontend/src/components/RatingStars.tsx:18-22 | the callback gets the value iff the widget is not read-only and has a callback |
| `RatingStars.ClickedRatingInRange` | src/frontend/src/components/RatingStars.tsx:18-34 | any rating delivered by a click is the star's value, between 1 and 5 |
| `HygieneReviewForm.NormalizeText` | src/frontend/src/components/HygieneReviewForm.tsx:36 | nothing is sent iff the text is all whitespace; otherwise the trimmed text is sent, and it is non-empty (`Strings.Trim` states that it has no whitespace at either end) |
| `HygieneReviewForm.NormalizeTextStable` | src/frontend/src/components/HygieneReviewForm.tsx:36 | cleaning already cleaned text changes nothing |
| `Domain.IsAuthenticated` | src/frontend/src/components/HygieneReviewForm.tsx:14 | a missing identity is not signed in; an identity is signed in iff its principal is not anonymous |
| `HygieneReviewForm.CheckSubmit` | src/frontend/src/components/HygieneReviewForm.tsx:14-37 | a caller who is not signed in is refused first (authenticated = an identity exists and is not anonymous); a rating of 0 is refused next; otherwise the review mutation carries the rating and the cleaned text |
| `HygieneReviewForm.SubmitEnabled` | src/frontend/src/components/HygieneReviewForm.tsx:124 | the button is disabled while a submission is pending and while no rating is chosen, and enabled otherwise |
| `HygieneReviewForm.EnabledButtonSends` | src/frontend/src/components/HygieneReviewForm.tsx:124 | for a signed-in user an enabled button always leads to a send, and a rating of 0 both disables the button and is refused by the handler's guard (lines 28-31) |
| `HygieneReviewForm.ViewFor` | src/frontend/src/components/HygieneReviewForm.tsx:51-97 | a visitor gets the sign-in prompt, a signed-in user gets the thank-you after a success and the form otherwise |
| `HygieneReviewForm.ReviewForm.constructor` | src/frontend/src/components/HygieneReviewForm.tsx:17-18 | the form starts with rating 0 and empty text |
| `HygieneReviewForm.ReviewForm.ClickStar` | src/frontend/src/components/HygieneReviewForm.tsx:105 | clicking star i + 1 sets the rating to i + 1, keeps the text, and keeps the rating within 0..5 |
| `HygieneReviewForm.ReviewForm.EditText` | src/frontend/src/components/HygieneReviewForm.tsx:116 | typing replaces the text and keeps the rating |
| `HygieneReviewForm.ReviewForm.Submit` | src/frontend/src/components/HygieneReviewForm.tsx:20-49 | a refused submission sends nothing and leaves the form as it was; otherwise it sends exactly the `CheckSubmit` mutation, whose rating lies in 1..5; the form is cleared iff the mutation succeeds and is unchanged on error |
| `HygieneReviewList.Reverse` | src/frontend/src/components/HygieneReviewList.tsx:28 | entry i of the result is entry n − 1 − i of the input |
| `HygieneReviewList.ReverseInvolution` | src/frontend/src/components/HygieneReviewList.tsx:28 | reversing twice restores the fetched order |
| `HygieneReviewList.ReversePermutes` | src/frontend/src/components/HygieneReviewList.tsx:28 | reversal keeps every review with its multiplicity |
| `HygieneReviewList.AuthorLabel` | src/frontend/src/components/HygieneReviewList.tsx:39 | the label is the first min(8, length) characters of the principal's text followed by `...` |
| `HygieneReviewList.ShownText` | src/frontend/src/components/HygieneReviewList.tsx:42-46 | the text is shown iff it is present and non-empty, and then unchanged |
| `HygieneReviewList.ItemFor` | src/frontend/src/components/HygieneReviewList.tsx:37-48 | an entry has five stars, and a whole rating in 0..5 highlights exactly that many; the text shows iff present and non-empty; a separator follows iff the entry is not the last |
| `HygieneReviewList.ListViewFor` | src/frontend/src/components/HygieneReviewList.tsx:10-33 | spinner iff loading; the empty-state message iff loaded with a missing or empty list; otherwise one entry per review |
| `HygieneReviewList.EntriesReversed` | src/frontend/src/components/HygieneReviewList.tsx:28-46 | entry i shows review n − 1 − i: its stars, its shortened author and its text |
| `HygieneReviewList.CountOfLeading` | src/frontend/src/components/HygieneReviewList.tsx:48 | entries with separators on exactly the first k count k separators |
| `HygieneReviewList.SeparatorCount` | src/frontend/src/components/HygieneReviewList.tsx:48 | a separator follows every entry but the last, so n reviews give n − 1 separators |
| `OwnerCatalog.ViewFor` | src/frontend/src/pages/OwnerCatalogPage.tsx:94-157 | the checks run in order (not signed in → sign-in, role loading → spinner, not admin → access denied, admin → owner view), and the owner view shows iff signed in, loaded and admin (`isOwner`, line 37) |
| `OwnerCatalog.IsOwner` | src/frontend/src/pages/OwnerCatalogPage.tsx:37 | only the `admin` role makes the caller the owner; no role, `user` and `guest` do not |
| `OwnerCatalog.FormsShown` | src/frontend/src/pages/OwnerCatalogPage.tsx:159-340 | the owner view renders both the add form and the price form, and every other view renders neither |
| `OwnerCatalog.FormsOnlyForOwner` | src/frontend/src/pages/OwnerCatalogPage.tsx:94-184 | each form, and so each handler it submits to, is present iff the caller is signed in, the role has loaded and the role is `admin` |
| `OwnerCatalog.CheckAdd` | src/frontend/src/pages/OwnerCatalogPage.tsx:42-54 | a missing name, description or price is refused; an unparsable price is refused next; otherwise the mutation adds a sweet |
| `OwnerCatalog.ImageOrPlaceholder` | src/frontend/src/pages/OwnerCatalogPage.tsx:53 | the image sent is never empty: the entered image, or `/placeholder-sweet.jpg` when none was entered |
| `OwnerCatalog.SentSweetIsComplete` | src/frontend/src/pages/OwnerCatalogPage.tsx:42-54 | a sent sweet has a non-empty name, description and image, carries the entered fields and the parsed price, and uses `/placeholder-sweet.jpg` exactly when no image was entered |
| `OwnerCatalog.CheckUpdate` | src/frontend/src/pages/OwnerCatalogPage.tsx:72-81 | a missing sweet or price is refused; an unparsable price is refused next; otherwise the update carries the selected name and the parsed price |
| `OwnerCatalog.Refusal` | src/frontend/src/pages/OwnerCatalogPage.tsx:39-91 | missing fields and an unparsable price are reported as different errors |
| `OwnerCatalog.OwnerForms.constructor` | src/frontend/src/pages/OwnerCatalogPage.tsx:24-35 | both forms start empty, with category `other` |
| `OwnerCatalog.OwnerForms.EditNewSweet` | src/frontend/src/pages/OwnerCatalogPage.tsx:190-246 | typing in one text input of the add form replaces that field only; the other fields and the price form are kept |
| `OwnerCatalog.OwnerForms.ChooseCategory` | src/frontend/src/pages/OwnerCatalogPage.tsx:212 | choosing a category replaces the add form's category only; the price form is kept |
| `OwnerCatalog.OwnerForms.ChooseSweet` | src/frontend/src/pages/OwnerCatalogPage.tsx:294 | choosing a sweet replaces the price form's name only; the add form is kept |
| `OwnerCatalog.OwnerForms.EditNewPrice` | src/frontend/src/pages/OwnerCatalogPage.tsx:317 | typing a new price replaces the price form's price only; the add form is kept |
| `OwnerCatalog.OwnerForms.AddSweet` | src/frontend/src/pages/OwnerCatalogPage.tsx:39-67 | a refused add sends nothing and leaves both forms as they were; otherwise it sends exactly the `CheckAdd` sweet; the add form resets iff the mutation succeeds; the price form is never touched |
| `OwnerCatalog.OwnerForms.UpdatePrice` | src/frontend/src/pages/OwnerCatalogPage.tsx:69-91 | a refused update sends nothing and leaves both forms as they were; otherwise it sends exactly the `CheckUpdate` mutation; the price form clears iff the mutation succeeds; the add form is never touched |

## Left out

- React rendering, JSX markup, CSS classes and icons are not modelled. Only the decisions that choose what is shown are.
- Query caching internals are not modelled: de-duplication, refetching, retries, subscriber sharing and `isPending`/`isSuccess` bookkeeping. `QueryCache` keeps only the freshness of each key.
- The remote service, the actor hook and the identity provider are not part of this model. They become parameters.
- `sent` in `QueryCache` is a ghost log of the service calls. It stands for the calls themselves, not for anything the front end stores.
- Toasts and their texts are not modelled, including the `error.message || ...` fallback on the owner page. Neither are `window.scrollTo` in `navigateTo` or the page reload behind "Submit Another Review".
- `BigInt(string)` parsing of the owner forms' prices is a parameter, `parsedPrice`, whose `None` stands for the parse throwing. `BigInt(rating)` in the review form is the identity on a whole number.
- `Number(review.rating)` is modelled as an exact conversion to `real`, and the double division `sum / reviews.length` as the exact `real` quotient. Floating-point rounding of very large ratings and of the quotient is not modelled.
- The sum in `HygieneStats` is an unbounded integer. `toFixed(1)` formatting is left out: `HygieneStats.AverageTextFor` carries the unrounded average.
- `Strings.Lower`: only ASCII capitals are lower-cased. Unicode case mapping is not modelled.
- `Strings.IsWhitespace` follows the ECMAScript WhiteSpace and LineTerminator code points, taking Zs to be the code points Unicode 15 assigns to it.
- The catalog's category selector holds a string. The model uses `All` or a `Category` value, because only those values are ever offered.
- The owner form holds its category as a key of the enum. The model holds the `Category` value the key maps to.
- The per-item `key` props and the "Current Catalog" listing on the owner page are not modelled.
- The "price must not be negative" and "rating at most 5" checks do not exist in the code, so they are not modelled as checks. A negative price reaches the service. A rating outside 1..5 cannot arise through the widget: `ReviewForm.Valid` and `RatingStars.ClickedRatingInRange` show this.
- Access control beyond the owner page's view gate belongs to the service and is not part of this model.
- `HygieneReviewList.Reverse`: the reversed list is a value, so the fetched list cannot be changed by it. Aliasing of the copy is not modelled because there is none to model.
- The comment above the reversal in `HygieneReviewList.tsx` speaks of sorting by rating. The code only reverses, and the model follows the code.
- `HygieneReviewForm.ReviewForm.Submit` does not model the `isPending` flag. The button rule is stated separately by `SubmitEnabled` and `EnabledButtonSends`.
- `ReviewForm.Submit`: sending the review and its settling are treated as one step, with the service's answer passed in as `reply`. In the code the call is pending in between. Edits to the stars or the text made while it is pending are not captured, and neither is the success reset overwriting them.
- `OwnerForms.AddSweet`: sending the sweet and its settling are treated as one step, with the service's answer passed in as `reply`. Field edits and a price update submitted while the call is pending are not captured, and neither is the success reset overwriting such edits.
- `OwnerForms.UpdatePrice`: sending the update and its settling are treated as one step, with the service's answer passed in as `reply`. Field edits and an add submitted while the call is pending are not captured, and neither is the success reset overwriting such edits.
- `HygieneStats.SumRatings` is the reference sum of the ratings; `HygieneStats.Reduce` models the fold the code runs and is proved equal to it.
- `Catalog.CategoryOptions` is a constant; the claims about it are those of `Catalog.CategoryOptionsComplete`.
- `Queries.KeyName` gives the literal key of each read; what is claimed about it is stated by `Queries.KeyNamesDistinct`.
- The sign-in buttons on the review form and on the owner page are disabled while a login is in progress (`isLoggingIn`), and show "Signing In..." meanwhile. The login flow belongs to the identity provider, so this state is not modelled.
- The add and price handlers themselves do not check the role; the model, like the code, relies on the forms being rendered only in the owner view (`OwnerCatalog.FormsOnlyForOwner`).
