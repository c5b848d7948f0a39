# Verification of the shop backend

A Dafny model of the state-changing core of the shop backend: refresh-token sessions, orders and
stock, product galleries, slugs, one-time codes, accounts and their social links, the address
book, the rate limiter, and the keyed hash and base64url encoding they rest on. `dafny verify
dfyconfig.toml` checks all of it.

## How the model is built

A table is a map (or, for orders, a sequence of rows). Each area has

- a value `State` with one pure function per service function, taken as one transaction: the
  state it leaves and the answer it gives;
- a class that holds the tables and whose methods run the statements of the service function one
  by one, in the order of the source, rolling back where the source returns an error before its
  commit. Each method is proved to end in exactly the state and answer of the pure function and
  to keep the invariant;
- lemmas about every run of operations from the empty tables, and lemmas that say over the rows, not
  over the function, when each operation succeeds, what it then changes, and what a refusal leaves
  or commits.

| file | what it covers |
|---|---|
| `Common.dfy` | optional values and time |
| `Hashing.dfy` | the segment hash, session tokens, code hashes |
| `Base64Url.dfy` | base64url without padding, and its inverse |
| `RateLimiter.dfy` | the limiter, pruning, window bounds |
| `RefreshTokens.dfy`, `RefreshTokenRuns.dfy`, `RefreshTokenEffects.dfy`, `RefreshTokenTable.dfy` | token families: specification, runs, effects row by row, statements |
| `Orders.dfy`, `OrderRuns.dfy`, `OrderEffects.dfy`, `OrderStore.dfy` | orders and stock: specification, runs, effects, statements |
| `Galleries.dfy`, `GalleryRuns.dfy`, `GalleryEffects.dfy`, `GalleryStore.dfy` | galleries as lists, runs, effects, and the rows that refine them |
| `Slugs.dfy`, `Uuids.dfy`, `SlugRegistry.dfy`, `SlugLookups.dfy`, `SlugEffects.dfy` | slug strings; texts of ids; current slugs and history; which texts find which rows; effects |
| `VerificationCodes.dfy` | one-time codes and their attempt limit |
| `Accounts.dfy`, `AccountEffects.dfy`, `AccountStore.dfy` | accounts, links, tickets, passwords: specification and runs, effects, transactions |
| `Addresses.dfy` | the address book and its one default |

History variables (every token id ever issued, the units ever supplied, the guesses made against a
code, the slugs ever assigned, the users ever let in) are part of the states because several
properties speak of rows that are already gone; in a reachable state no table and no answer depends
on them.

## What the code does not do

Some properties one might expect do not hold. Each is shown to fail on a run from the empty tables or
on every state of a kind, and the exact condition is proved.

- Stock is not always conserved. An admin cancellation returns stock through a plain `UPDATE ...
  FROM` join, which applies one matching line per product, while an order may list a product on
  several lines (`src/order/service.rs:476-488`). `OrderRuns.Conservation` gives the exact deficit,
  which is zero if and only if no admin has cancelled an order repeating the product;
  `OrderRuns.RepeatedLineLosesStock` is a run that loses a unit. The batch route has no such gap.
- A slug does not always find its owner. When it is also the text of another active row's id it finds
  that row (`src/product/service.rs:486-490`): `SlugRegistry.IdShadowsSlug` and
  `SlugRegistry.ShadowedFromTheStart`. `SlugRegistry.SlugsArePermanent` is an if-and-only-if with
  exactly this exception.
- A logout does not always end the session: `RefreshTokenRuns.LogoutEndsIff` says when, and
  `RefreshTokenRuns.LogoutLeavesSuccessor` what happens otherwise.
- A replayed refresh token inside the window is refused without revoking the family when its user
  has been deactivated (`src/auth/service.rs:1490-1539`): a case of `RefreshTokenRuns.ReplayAnswer`.
- A social sign-in that verifies an account keeps the password it was registered with:
  `Accounts.PasswordAfterSocialSignIn` says exactly which password works afterwards.

Between the insert of a successor and the statement that links it, the new token's parent does not
point back yet; `RefreshTokens.RotationKeepsChains` states what holds there.

## Assumptions

- Transactions are serialised: the row locks of the source stand for that. `SKIP LOCKED` appears as
  the set of orders locked by others.
- The clock is an input, read once per call. Where age decides (orders, the limiter) it does not go back.
- New ids, codes' record ids and login tickets are not reused.
- The hash is any injective function (`Hashing.Digest`), and a stored password hash is named by the
  password it verifies. Signed access tokens, random codes, image hosting, e-mail and provider calls
  are inputs or absent.
- Character classes are any that satisfy `Slugs.Lawful`: ASCII letters and digits as expected,
  separators not alphanumeric, lower-casing idempotent and keeping blanks and slashes. `Uuids.ParseUuid` accepts the forms of a
  UUID: hyphenated, without hyphens, in braces, as a URN, in either case.
- A value outside its column's range (INT stock, DECIMAL(10,2) amounts, held in hundredths) or
  against a unique index aborts the transaction. In such a case the model changes nothing.

## Model

| member | source | states |
|---|---|---|
| RefreshTokenTable.Table.RotateRefreshToken | src/auth/service.rs:1455-1591 | The rotation transaction, branch by branch, ends in the state and with the answer of `Rotate`, keeping every invariant |
| RefreshTokenTable.Table.ReplaceToken | src/auth/service.rs:1541-1584 | The three statements of a rotation, with the chains and unique indexes holding after each |
| RefreshTokenTable.Table.RevokeRefreshTokenFamily | src/auth/service.rs:1755-1771 | Revokes every token of one family, keeping earlier revocation times, and touches nothing else |
| RefreshTokenTable.Table.CreateRefreshToken | src/auth/service.rs:1797-1848 | A new session is a new family of one token; the foreign key refuses an unknown user; every invariant is kept |
| RefreshTokenTable.Table.Logout | src/auth/service.rs:1594-1607 | Deletes the row with the presented token's hash and nulls the references to it, keeping the chains |
| RefreshTokenTable.Table.DeleteRefreshTokensForUser | src/auth/service.rs:1728-1738 | Deletes all tokens of a user with the references to them, keeping the chains |
| RefreshTokenTable.Table.DeleteRows | migrations/016_refresh_token_rotation_hardening.sql:1-6 | A delete together with its two ON DELETE SET NULL references keeps the chains |
| RefreshTokenTable.Table.CleanupExpired | src/shared/maintenance.rs:91-93 | The periodic delete of expired tokens keeps the chains |
| RefreshTokenTable.Table.SelectByHash | src/auth/service.rs:1460-1474 | Finds a row with the hash, or there is none |
| RefreshTokens.RotationKeepsChains | src/auth/service.rs:1541-1584 | Between the three statements the chains and the one-live-token index hold, and after the last every link is answered in both directions |
| RefreshTokens.InsertFirstBreaksIndex | migrations/016_refresh_token_rotation_hardening.sql:21-27 | The statement order is needed: inserting the successor before consuming the old token would violate the unique index |
| RefreshTokens.RemoveKeepsInv | migrations/016_refresh_token_rotation_hardening.sql:1-6 | Deleting any set of tokens and nulling the pointers to them keeps every chain property |
| RefreshTokens.LookupExact | src/auth/service.rs:1460-1474 | A presented string finds a stored token if and only if it is the very string issued for it |
| RefreshTokenRuns.RunKeepsInv | src/auth/service.rs:1455-1607 | The token-table invariant survives every run of issues, rotations, logouts, user-wide deletes, cleanups and (de)activations |
| RefreshTokenRuns.ChainsInEveryReachableState | src/auth/service.rs:1541-1584 | In every reachable state the successor pointers form disjoint acyclic chains, answered by parent pointers, within one family and user; a token with a successor is consumed; a family has at most one live token |
| RefreshTokenRuns.DeadFamilyIsRefusedForEver | src/auth/service.rs:1476-1539 | A family without a live token never gets one again: each of its tokens is refused after every continuation |
| RefreshTokenRuns.ReuseEndsTheFamily | src/auth/service.rs:1520-1539 | After a detected reuse no token of the family, old or new, is accepted in any continuation |
| RefreshTokenRuns.StolenTokenEndsTheFamily | src/auth/service.rs:1490-1539 | A rotated token presented again after the five-second window ends its family for both holders and for ever |
| RefreshTokenRuns.LogoutEndsTheSession | src/auth/service.rs:1594-1607 | After a logout with the live token no token of its family is accepted in any continuation |
| RefreshTokenRuns.LogoutEndsIff | src/auth/service.rs:1594-1607 | A logout leaves the family without a live token if and only if the presented token was live or no token of the family was |
| RefreshTokenRuns.LogoutLeavesSuccessor | src/auth/service.rs:1594-1607 | After a logout with an already rotated token the live token of the family is still rotated |
| RefreshTokenRuns.PasswordChangeEndsEverySession | src/auth/service.rs:716-718 | After a password reset, change or set no refresh token the user was ever issued is accepted in any continuation |
| RefreshTokenRuns.AtMostOneSuccessor | src/auth/service.rs:1490-1584 | Over every run, replays and races included, a token creates at most one successor |
| RefreshTokenRuns.ReplayIsIdempotent | src/auth/service.rs:1490-1539 | After rotating T to X and any further run, presenting T again inside the window, with X live and unexpired, returns the identical X and changes nothing (a suspended user is refused, without revocation); any other presentation of the consumed, unrevoked, unexpired T revokes the whole family |
| RefreshTokenRuns.RotationEffect | src/auth/service.rs:1541-1591 | A live token is rotated if and only if it is unexpired and its user active; the table afterwards is described row by row; otherwise nothing changes |
| RefreshTokenRuns.RefusalReasons | src/auth/service.rs:1460-1488 | When a presentation is unknown, revoked or expired, each as an if-and-only-if; no refusal but a detected reuse changes anything |
| RefreshTokenRuns.IssueStartsFamily | src/auth/service.rs:1829-1848 | A new session token is the only member of a fresh family, live, with full lifetime, and no other row changes |
| RefreshTokenEffects.CleanupEffect | src/shared/maintenance.rs:91-93 | A row is stored after a cleanup if and only if it was stored and has not expired; survivors keep every field apart from links to deleted rows |
| RefreshTokenEffects.TokenAfterCleanup | src/shared/maintenance.rs:91-93 | An unexpired live token of an active user is still rotated after a cleanup, and an expired one is unknown |
| RefreshTokenEffects.DropUserEffect | src/auth/service.rs:1728-1738 | Exactly the user's rows go; survivors keep every field apart from links to deleted rows |
| RefreshTokenEffects.LogoutEffect | src/auth/service.rs:1594-1607 | Exactly the row of the presented string goes, none for an unknown one |
| RefreshTokenEffects.RotateDecision | src/auth/service.rs:1476-1591 | Which of the five answers a stored token gets, each as an if-and-only-if over its row, its successor's and its user's, with the table afterwards |
| RefreshTokenEffects.NoSessionWithoutUser | src/auth/service.rs:1797-1818 | A session for a missing user is refused and nothing is stored |
| Hashing.ComputeHashSegments | src/shared/security.rs:12-22 | The hasher loop feeds exactly the secret and the NUL-separated segments |
| Hashing.HashSegmentsInjective | src/shared/security.rs:12-22 | For equally many segments, all but the last free of NUL, equal digests mean equal segment lists, and conversely |
| Hashing.CountMatters | src/shared/security.rs:12-22 | The equal count is needed: one segment and two segments with one digest |
| Hashing.NulInSegmentCollides | src/shared/security.rs:12-22 | The NUL-free condition is needed: two different pairs of segments with one digest |
| Hashing.PurposesNeverCollide | src/shared/security.rs:81-114 | Digests made under different purpose tags never coincide, whatever follows the tag |
| Hashing.RefreshTokenHashInjective | src/shared/security.rs:81-83 | Two token strings have the same stored hash if and only if they are equal |
| Hashing.SessionTokenInjective | src/shared/security.rs:85-89 | Two token ids give the same session token if and only if they are equal |
| Hashing.CodeHashInjective | src/shared/security.rs:112-114 | For one purpose and address the stored hash is matched by the issued code and no other |
| Base64Url.Base64UrlNoPad | src/shared/security.rs:121-157 | The loop with its shifts, masks and tail match computes `Encode`, the arithmetic on 24-bit groups |
| Base64Url.PushTail | src/shared/security.rs:141-154 | The match on the one or two remaining octets encodes exactly them |
| Base64Url.RoundTrip | src/shared/security.rs:121-157 | A strict decoder returns bytes for a string if and only if the string is their encoding: a bijection |
| Base64Url.EncodeInjective | src/shared/security.rs:121-157 | Different byte strings have different encodings |
| Base64Url.EncodeLength | src/shared/security.rs:125 | The output length is exactly ceil(4n/3), the reserved capacity |
| Base64Url.EncodeInAlphabet | src/shared/security.rs:121-157 | Every output character has a value in the URL-safe alphabet |
| Base64Url.EncodeBits | src/shared/security.rs:121-157 | The output carries the input's bits in order, six to a character, most significant first, with zeros at the end (section 4 of RFC 4648) |
| Base64Url.ChunkDigits | src/shared/security.rs:128-139 | The shifts and masks pick the base-64 digits of the 24-bit chunk |
| Base64Url.TableIsAlphabet | src/shared/security.rs:122-123 | The literal table is the alphabet of section 5 of RFC 4648 |
| RateLimiter.Limiter.Check | src/shared/rate_limit.rs:32-62 | The entry-by-entry update answers and stores what the specification says, pruning included |
| RateLimiter.PruningIsInvisible | src/shared/rate_limit.rs:37-39 | For every run with a non-decreasing clock, pruning above 4096 entries changes no answer |
| RateLimiter.PruningForgetsElapsed | src/shared/rate_limit.rs:37-39 | A call that finds more than 4096 entries drops exactly the elapsed ones of other keys, and changes no other |
| RateLimiter.WindowBound | src/shared/rate_limit.rs:32-62 | In every closed interval of one (positive) window length a key under a fixed rule gets at most twice the limit, among any other keys and rules |
| RateLimiter.WindowBoundIsTight | src/shared/rate_limit.rs:46-51 | For every limit and window, a run inside one window length in which twice the limit gets through |
| RateLimiter.ZeroWindowAllowsAll | src/shared/rate_limit.rs:46-51 | With a zero-length window and a positive limit every call of every run is allowed |
| RateLimiter.BoundedIff | src/shared/rate_limit.rs:32-62 | The bound of twice the limit holds on all runs if and only if the window is positive or the limit is zero |
| RateLimiter.OneWindowBound | src/shared/rate_limit.rs:53-61 | Between two resets the entry keeps its reset time, the successes are exactly what its count grew by, and with the call that opened the window they are at most the limit |
| RateLimiter.RefusalMeansLimitReached | src/shared/rate_limit.rs:53-58 | A refusal at time t means the limit was used up by calls less than one window before t |
| OrderStore.Store.CreateOrder | src/order/service.rs:26-208 | The transaction ends in the state and with the answer of the specification; a failure midway restores what it found |
| OrderStore.Store.ReserveItem | src/order/service.rs:96-168 | One iteration of the loop: its four refusals, the stock update and the inserted line |
| OrderStore.Store.ReserveItems | src/order/service.rs:96-168 | The loop reserves all lines and sums the total, or stops at the first refusal |
| OrderStore.Store.ChooseJoinRows | src/order/service.rs:476-488 | The database may join any one of the matching lines of each product |
| OrderStore.Store.UpdateOrderForAdmin | src/order/service.rs:430-502 | The admin update, for whichever lines the join picked, ends in the specified state |
| OrderStore.Store.UpdateOrderPaymentSlip | src/order/service.rs:354-427 | The slip upload, and the previous slip it hands back for deletion |
| OrderStore.Store.FetchStaleOrderIds | src/shared/maintenance.rs:228-247 | The query returns the first hundred overdue, unlocked orders |
| OrderStore.Store.CancelStaleOrders | src/shared/maintenance.rs:190-222 | The batch transaction ends in the specified state and reports how many orders it cancelled |
| OrderRuns.JoinReturnsOneLine | src/order/service.rs:476-488 | The plain join returns all of a product if and only if the order lists it once, and strictly less otherwise, whichever line it picks |
| OrderRuns.RoutesCompared | src/shared/maintenance.rs:279-309 | On one order the grouped sum returns everything, so the two routes agree exactly when no product is repeated |
| OrderRuns.RepeatedLineLosesStock | src/order/service.rs:476-488 | A run from the empty tables: two units supplied and bought on two lines, the order cancelled by an admin, one unit on the shelf and none held |
| OrderRuns.CreateOrderIff | src/order/service.rs:56-186 | An order is placed if and only if the address is the user's, every item is sellable, no product's total demand exceeds its stock and the amount fits; otherwise stock, orders and cart are as before |
| OrderRuns.CreateOrderEffect | src/order/service.rs:96-186 | The placed order is the requested lines at current names and prices with their exact total; each stock falls by the product's demand; the cart is empty |
| OrderRuns.RunKeepsInv | src/order/service.rs:26-556 | The accounting, totals, tracking and ordering invariants survive every run |
| OrderRuns.Conservation | src/order/service.rs:476-488 | Over every run supply is exactly stock plus held quantity plus what the leaking orders lost; stock is never negative; nothing is lost if and only if no admin cancelled an order that repeats the product |
| OrderRuns.OrdersOnlyEvolve | src/order/service.rs:885-921 | Over every run lines, prices, total and owner never change, the status rank never falls, DELIVERED and CANCELLED are final, and stock is returned at most once |
| OrderRuns.ShippedWasPaid | src/order/service.rs:885-917 | On every run an order that ends shipped or delivered was PAID on the way |
| OrderRuns.PaidWasReviewed | src/order/service.rs:885-917 | On every run an order that ends paid or later was in PAYMENT_REVIEW on the way |
| OrderRuns.ReachableOrders | src/order/service.rs:457-474 | In every reachable state an order has a tracking number exactly when SHIPPED or DELIVERED, and its total is the sum of its lines |
| OrderRuns.ReachableSummary | src/order/service.rs:588-638 | In every reachable state and for every search, all is the sum of the seven status counts and tracked is shipped plus delivered |
| OrderRuns.StepFollowsTable | src/order/service.rs:885-917 | Every step of every kind, automatic cancellation and slips included, moves each order along the transition table |
| OrderRuns.TransitionsAre | src/order/service.rs:885-917 | The transition table is the chain, the review/failure exchange, and cancellation before shipping |
| OrderRuns.AdminUpdateIff | src/order/service.rs:457-502 | An admin update goes through if and only if the transition is allowed, tracking and status agree and returned stock fits; what it changes, and nothing on refusal |
| OrderRuns.SlipIff | src/order/service.rs:380-403 | A slip is accepted if and only if the order is the user's and not yet paid; it then is under review and no stock moves |
| OrderRuns.BatchEffect | src/shared/maintenance.rs:190-222 | The batch cancels exactly its orders and returns for each product all lines of all of them |
| OrderRuns.OnlyOverdueAreCancelled | src/shared/maintenance.rs:249-277 | No order is cancelled automatically before its own timeout, while locked, or with the timeout switched off |
| OrderEffects.OverdueAreCancelled | src/shared/maintenance.rs:249-277 | When the batch goes through, every unlocked order past the timeout of its status (pending since creation, failed since its last update) ends cancelled, or a hundred orders created no later were |
| OrderEffects.CancelledWereOverdue | src/shared/maintenance.rs:190-222 | At most a hundred orders are cancelled, each unlocked and overdue and otherwise as before; every other order is untouched |
| OrderEffects.BatchIff | src/shared/maintenance.rs:279-309 | The batch goes through if and only if the returned stock fits its column for every product; otherwise nothing changes |
| OrderEffects.BatchNeverOverflows | src/shared/maintenance.rs:279-309 | It always goes through while no supply exceeds the column's range |
| OrderEffects.OrdersMoveStockOnly | src/order/service.rs:96-168 | No order operation changes a product's name, price or active flag, nor the supply |
| OrderEffects.AdminMovesStock | src/order/service.rs:476-488 | An admin update returns the joined quantity of each product when it cancels, and moves no stock otherwise |
| OrderEffects.AdminRefusals | src/order/service.rs:457-474 | Each refusal of an admin update as an if-and-only-if |
| OrderEffects.SlipRefusals | src/order/service.rs:380-403 | Each refusal of a slip as an if-and-only-if |
| OrderEffects.CreateRefusals | src/order/service.rs:56-168 | An order is refused for its address, for the first item the remaining stock does not allow with that item's reason, or for its amount |
| OrderEffects.SummaryCounts | src/order/service.rs:588-638 | Each count of the summary is the number of matching orders it names |
| OrderEffects.CreateProductIff | src/product/service.rs:149-224 | The stock side of a new product: stored as given if its stock fits |
| OrderEffects.EditProductIff | src/product/service.rs:227-320 | An edit sets the named fields of one product and keeps the rest; the supply moves with the stock |
| GalleryStore.Store.FetchProductImages | src/product/service.rs:650-668 | The listing is the product's rows in the query's order |
| GalleryStore.Store.ConsumePendingProductImage | src/product/service.rs:928-961 | The upload is used up if it is this admin's, unexpired and at the same address |
| GalleryStore.Store.ApplyProductImageOrder | src/product/service.rs:749-785 | Clears the flags, then renumbers the rows along the ids and marks one primary; no statement leaves two primaries; fails on a foreign id |
| GalleryStore.Store.SyncProductPrimaryImage | src/product/service.rs:787-824 | The copied fields become those of the head of the list, or null |
| GalleryStore.Store.AttachProductImage | src/product/service.rs:336-406 | The rows refine new::old or old++[new], or nothing changed |
| GalleryStore.Store.ReorderProductImages | src/product/service.rs:423-464 | The rows refine the requested permutation; anything else is refused unchanged |
| GalleryStore.Store.DeleteProductImageInternal | src/product/service.rs:826-926 | The rows refine the old list without the target, the primary image by default |
| GalleryStore.Store.ReplacePrimaryProductImage | src/product/service.rs:707-747 | The four statements refine new::tail, numbering gaps and all |
| GalleryStore.Store.UpdateProductImage | src/product/service.rs:249-313 | The image part of a product update: unchanged image, replaced head, or a refusal that changes nothing |
| GalleryStore.Store.CreateProductImage | src/product/service.rs:149-224 | A new product starts with an empty gallery or one primary image |
| GalleryStore.PermutationBySizes | src/product/service.rs:436-454 | The size and subset comparisons on hash sets accept exactly the permutations of the current images |
| GalleryStore.FlagsPerStatement | src/product/service.rs:707-747 | After each of the four statements of a replacement a product has at most one primary row |
| GalleryStore.RefinesOnePrimary | migrations/007_product_images_gallery.sql:3-21 | Rows that refine the lists satisfy the one-primary index |
| Galleries.ListingIsGallery | src/product/service.rs:650-668 | Every listing sorted by the query's keys is the list the rows stand for: the order is total on them |
| Galleries.GalleryUnique | src/product/service.rs:650-668 | The rows stand for one list only |
| GalleryRuns.RunKeepsInv | src/product/service.rs:336-926 | Distinctness across all galleries survives every run |
| GalleryRuns.ReachableGalleries | src/product/service.rs:336-926 | In every reachable state a gallery has at most four images and no image appears twice anywhere |
| GalleryRuns.ReorderUndone | src/product/service.rs:423-464 | Reordering and reordering back restores the gallery |
| GalleryRuns.AttachThenDelete | src/product/service.rs:336-406 | Deleting the image just attached restores every gallery |
| GalleryRuns.AttachNeedsUpload | src/product/service.rs:928-961 | An image enters a gallery only through a matching unexpired upload by the same admin, which is used up: the same request again is refused |
| GalleryEffects.AttachIff | src/product/service.rs:336-406 | When an attach goes through, where the new image is placed (front when asked for, or unasked when first; else last), and that nothing else changes |
| GalleryEffects.AttachRefusals | src/product/service.rs:336-406 | Each refusal of an attach as an if-and-only-if, in the order of the checks |
| GalleryEffects.ReorderIff | src/product/service.rs:423-464 | A reorder goes through if and only if the request names each image exactly once; the gallery then has the requested ids in that order, each with its own image, and nothing else changes |
| GalleryEffects.DeleteIff | src/product/service.rs:826-926 | When a delete goes through; one picture goes, the named one or the head, and the others keep their order |
| GalleryEffects.CreateProductIff | src/product/service.rs:149-224 | A new product has no image or the one admitted image as its head; otherwise nothing changes |
| GalleryEffects.UpdateImageIff | src/product/service.rs:249-313 | Each case of the image part of a product update, with its refusal or the head it replaces |
| GalleryEffects.UploadsOnly | src/product/service.rs:607-632 | Recording an upload and dropping expired ones touch no gallery; exactly the expired ones go |
| GalleryEffects.QueryOrder | src/product/service.rs:650-668 | A listing by the query's keys is: primary first, then by sort order, then by age |
| Slugs.ComputeSlugify | src/shared/slug.rs:3-27 | The loop with its buffer and flag computes: the maximal alphanumeric words of the lower-cased name joined by single hyphens, truncated, or the fallback; for any character classes that behave like Unicode's |
| Slugs.PushCharacters | src/shared/slug.rs:7-18 | The buffer is always the joined words so far plus a pending hyphen |
| Slugs.SlugifyNormal | src/shared/slug.rs:3-27 | Every slug is non-empty, at most 120 characters, lower-case alphanumeric with single inner hyphens |
| Slugs.SlugifyFixesSlugs | src/shared/slug.rs:3-27 | On such strings `slugify` is the identity |
| Slugs.SlugifyIdempotent | src/shared/slug.rs:3-27 | `slugify` is idempotent |
| Slugs.LookupKeepsSlugs | src/shared/slug.rs:41-49 | `normalize_slug_lookup` returns every slug unchanged |
| SlugEffects.RunIsWord | src/shared/slug.rs:7-18 | A run of letters and digits is one word of a slug |
| SlugEffects.SeparatorSplits | src/shared/slug.rs:7-18 | Any other character separates words and leaves nothing else between them |
| SlugEffects.SlugifyText | src/shared/slug.rs:3-27 | A name becomes its lower-cased words joined by hyphens and cut at 120, blanks around it or not, or the fallback if it has none |
| Slugs.TruncateClean | src/shared/slug.rs:51-60 | Truncation keeps the normal form and drops exactly the excess and a hyphen left at the cut |
| Slugs.AppendNormal | src/shared/slug.rs:29-39 | A slug with any u32 suffix is again a slug |
| SlugEffects.NeverEmpty | src/shared/slug.rs:51-60 | A cut slug is never empty; nothing but hyphens becomes `item` |
| SlugEffects.CandidateShape | src/shared/slug.rs:29-39 | A candidate is the base, cut only as far as needed, a hyphen and the suffix in decimal |
| SlugEffects.DecimalReads | src/shared/slug.rs:34 | The decimal text of a suffix reads as that number, without leading zeros |
| Slugs.CandidatesDistinct | src/shared/slug.rs:29-39 | Candidates for different suffixes from 2 on differ |
| Slugs.SuffixOneMayCoincide | src/shared/slug.rs:29-39 | At the 120-character cut suffix 1 may coincide with a later one |
| SlugRegistry.Registry.GenerateUniqueSlug | src/product/service.rs:549-587 | The search loop terminates and returns the first candidate free of current slugs and history |
| SlugRegistry.SearchBound | src/product/service.rs:554-586 | Pigeonhole: the search tries at most two suffixes more than there are taken slugs |
| SlugRegistry.UniqueSlugIs | src/category/service.rs:218-256 | The chosen slug is the first free candidate and among as many candidates as there are taken slugs, plus two |
| SlugRegistry.Registry.CreateEntity | src/category/service.rs:12-40 | A new row gets a slug nobody ever owned |
| SlugRegistry.Registry.UpdateName | src/category/service.rs:94-118 | A changed plain slug moves the row to a free slug and records the old one; otherwise nothing moves |
| SlugRegistry.Registry.DeleteCategory | src/category/service.rs:126-149 | Refused while products are assigned; otherwise removes the category and its history and nobody else's |
| SlugRegistry.Registry.Resolve | src/product/service.rs:482-513 | Lookup by the id the text denotes, then current slug, then history, active rows only |
| Uuids.ParsedIsUuid | src/product/service.rs:486-490 | An id text parses to itself exactly when it is canonical, and whatever parses denotes a canonical one |
| Uuids.ParseIff | src/product/service.rs:486-490 | A text parses to an id if and only if it is one of the id's texts: hyphenated, in braces, as a URN, or its digits alone, in either case |
| Uuids.CaseDoesNotMatter | src/product/service.rs:486-490 | A hyphenated text parses to an id if and only if it differs from it in letter case at most |
| SlugRegistry.RunKeepsInv | src/product/service.rs:243-301 | After every run each slug ever assigned to an existing entity is its current slug or a history entry of it, and all are in normal form |
| SlugRegistry.SlugsArePermanent | src/product/service.rs:482-605 | A slug an entity has now finds it after every further run, if and only if it still exists and is active and the slug is not the text of another active row's id |
| SlugRegistry.LookupFindsOwner | src/category/service.rs:54-78 | Any slug ever assigned resolves to its own entity, if and only if that is active and the slug is not the text of another active row's id |
| SlugRegistry.LookupById | src/product/service.rs:486-490 | The canonical text of an active row's id finds that row |
| SlugLookups.LookupIff | src/product/service.rs:482-513 | What every text finds: the active row whose id it is, else the active row ever assigned a slug that the text spells up to letter case and outer blanks and slashes, else nothing |
| SlugLookups.SpellingFindsOwner | src/shared/slug.rs:41-49 | Every spelling of a slug ever assigned finds its owner, if and only if that is active and the text is not another active row's id |
| SlugLookups.AsciiSpelling | src/shared/slug.rs:48 | Capitals anywhere in an ASCII slug, and slashes and blanks around it, make a spelling of it |
| SlugLookups.RibeyeSpelled | src/shared/slug.rs:83-86 | `/Ribeye-Steak/` spells `ribeye-steak` |
| SlugRegistry.IdShadowsSlug | src/product/service.rs:482-513 | From any state, a row named after the free id text of an active row gets that text as its slug, and its slug then finds the other row |
| SlugRegistry.ShadowedFromTheStart | src/product/service.rs:482-513 | A run of two creations from the empty tables after which this is so |
| SlugRegistry.CurrentSlugsUnique | migrations/021_product_category_slugs.sql:68-75 | No two entities share a current slug |
| SlugEffects.CreateEffect | src/product/service.rs:554-586 | A new row gets the first candidate that no row has now and nobody had before; nothing else changes |
| SlugEffects.RenameEffect | src/product/service.rs:243-301 | A row whose plain slug changed moves to the first candidate free for it and its old slug is recorded; otherwise nothing changes |
| SlugEffects.RemoveEffect | src/category/service.rs:126-149 | A deleted row takes exactly its own history with it; (de)activating changes one flag |
| SlugRegistry.OwnSlugHandedBackOnce | src/product/service.rs:299-301 | When regeneration hands an entity its own suffixed slug back, the next one moves it |
| SlugRegistry.HandedBack | src/product/service.rs:243-248 | A run from the empty tables after which an entity is handed its own slug back |
| VerificationCodes.Table.ReplaceEmailVerification | src/auth/service.rs:1609-1650 | The two deletes and the insert leave one record per purpose and address and per purpose and user |
| VerificationCodes.Table.LoadAndValidate | src/auth/service.rs:1652-1714 | Missing, expired, locked, wrong and right codes, with what each commits |
| VerificationCodes.Table.RedeemCode | src/user/service.rs:185-241 | An accepted code takes effect and its record goes; or the effect is refused and the record goes all the same (address taken meanwhile); or it is refused and the record stays |
| VerificationCodes.RedeemedOnce | src/user/service.rs:212-238 | A code that took effect or was given up is used once or never, and dead in every continuation; one that was kept is untouched |
| VerificationCodes.EveryCodeIsLimited | src/user/service.rs:276-339 | For every code ever issued, over every run: at most five wrong guesses are evaluated, it takes effect at most once, and stored counts are 0 to 4 |
| VerificationCodes.GuessOutcome | src/auth/service.rs:1652-1714 | A guess is accepted if and only if it is the very code issued, in time; a wrong one counts and the fifth removes the record |
| VerificationCodes.GoneForEver | src/auth/service.rs:1716-1726 | Once its record is gone a code is never evaluated or used again |
| VerificationCodes.LatestCodeOnly | src/auth/service.rs:1609-1650 | Issuing a code makes it the one found, and kills every earlier one of the purpose for the address or the user in every continuation |
| VerificationCodes.IssueEffect | src/auth/service.rs:1609-1650 | One fresh record for fifteen minutes in the place of those of the purpose for the address or the user; every other record stays |
| VerificationCodes.CheckIff | src/auth/service.rs:1652-1714 | A guess is accepted if and only if a record for exactly this purpose, address and user is stored, unexpired, and the code is its own; no other record is touched |
| VerificationCodes.LockedIsRemoved | src/auth/service.rs:1683-1689 | A record that held five attempts would be removed unchecked |
| VerificationCodes.RedeemIff | src/user/service.rs:185-241 | A redemption is accepted if and only if the guess is |
| VerificationCodes.DeletesEffect | src/user/service.rs:165-182 | Which records giving up a code, the cleanup and an account's deletion remove |
| VerificationCodes.TwoDeletes | migrations/003_data_integrity_hardening.sql:72-77 | The two deletes leave nothing in the way of the unique indexes |
| VerificationCodes.RunKeepsInv | src/auth/service.rs:457-464 | The attempt and uniqueness invariants survive every run |
| AccountStore.Store.ResolveSocialUser | src/auth/service.rs:987-1047 | The branches of a social sign-in end in the specified state |
| AccountStore.Store.LinkSocialIdentity | src/auth/service.rs:1049-1102 | The branches of linking a provider end in the specified state for every user id, and keep the invariant for ids that come with an access token |
| AccountStore.Store.RegisterAccount | src/auth/service.rs:159-213 | The account part of a registration |
| AccountStore.Store.ExecuteAll | src/auth/service.rs:145-1452 | The tables follow the specification along every run of transactions, keeping the invariant after each |
| AccountStore.Store.IssueTokensForUser | src/auth/service.rs:1104-1122 | Once a sign-in has let a user in, any transactions may run before the tokens are made: the account is still there and verified, and the insert succeeds |
| AccountStore.Store.VerifyEmailAndIssueTokens | src/auth/service.rs:418-574 | The committed verification (with the legacy path), then any other transactions, then the tokens; a refusal changes nothing |
| AccountStore.Store.ExchangeOauthLoginTicket | src/auth/service.rs:1410-1452 | The committed use of the ticket, then any other transactions, then the tokens; an expired ticket goes, a refused user leaves it |
| AccountStore.Store.Login | src/auth/service.rs:577-647 | The password check and its refusals in order, then any other transactions, then the tokens |
| AccountStore.Store.ResetPassword | src/auth/service.rs:649-721 | The refusals of a password reset in order, and the new hash |
| AccountStore.Store.ChangePassword | src/auth/service.rs:723-788 | The refusals of a password change in order, and the new hash |
| AccountStore.Store.SetPassword | src/auth/service.rs:790-840 | The refusals of setting a first password in order, and the new hash |
| AccountStore.Store.VerifyEmailChange | src/user/service.rs:185-241 | An address change verifies the account under its new, unique address |
| AccountStore.Store.CleanupAccounts | src/shared/maintenance.rs:100-112 | The two deletes that concern accounts, with their cascades |
| Accounts.HoldersAreVerifiedForEver | src/shared/maintenance.rs:105-112 | In every reachable state whoever holds tokens, a ticket or a link, or has been let in and is about to, is verified, and stays so, undeleted, in every continuation |
| Accounts.TokensFollowSignIn | src/auth/service.rs:1386-1408 | Between a committed sign-in and its tokens or ticket any transactions may run: the invariant holds before and after, and the foreign key accepts both |
| Accounts.RunKeeps | src/auth/service.rs:418-1452 | The account invariants survive every run; no verified account or link is ever lost |
| Accounts.LinksInjective | migrations/001_initial_schema.sql:30-38 | In every reachable state a user has at most one identity per provider |
| Accounts.LinkedIdentityResolves | src/auth/service.rs:987-1011 | A linked identity keeps resolving to the same user after every run, whatever address it reports |
| Accounts.SocialLoginLinks | src/auth/service.rs:1013-1047 | A successful social sign-in leaves the identity linked to the account it entered, verified |
| Accounts.SocialLoginOnlyInto | src/auth/service.rs:987-1047 | It enters only a linked account, a new one, or an unverified one with the vouched address; never a verified account through an unlinked identity |
| Accounts.SocialRefusalsChangeNothing | src/auth/service.rs:987-1102 | A refused sign-in or link changes nothing |
| Accounts.LinkIff | src/auth/service.rs:1049-1102 | Linking goes through if and only if the account is active and neither side is linked elsewhere |
| Accounts.LoginIff | src/auth/service.rs:577-647 | A password lets in if and only if it is the stored one and the account active and verified |
| Accounts.PasswordAfterSocialSignIn | src/auth/service.rs:969-1047 | After a social sign-in, also one that verifies the account, a password opens the account if and only if it was stored there before |
| Accounts.RegisteredPasswordWorks | src/auth/service.rs:969-1047 | A run from the empty tables in which an unverified registration's password opens the account a social sign-in has verified |
| Accounts.RunKeepsPassword | src/auth/service.rs:145-241 | Over every run a verified account's password changes by its own reset, change or set only |
| Accounts.OnlyLatestPassword | src/auth/service.rs:649-840 | After a reset, change or set, and any run without another, the new password lets in and no other |
| Accounts.TicketUsedOnce | src/auth/service.rs:1410-1452 | A ticket opens one session, in time, for its own user, and is unknown in every continuation |
| AccountEffects.RegisterIff | src/auth/service.rs:159-213 | What a registration does with a free address, a pending account, a verified and a suspended one |
| AccountEffects.VerifyEmailIff | src/auth/service.rs:418-574 | A verification lets u in if and only if the code was accepted and u is the active unverified account with the address, or the new one of a legacy registration with a password; only u changes, and nothing otherwise |
| AccountEffects.VerifyEmailRefusals | src/auth/service.rs:436-464 | Each refusal of a verification as an if-and-only-if |
| AccountEffects.LoginRefusals | src/auth/service.rs:577-621 | Each refusal of a password sign-in as an if-and-only-if |
| AccountEffects.LinkedSignIn | src/auth/service.rs:991-1001 | A linked identity enters its account if and only if that is active, and changes no row |
| AccountEffects.UsingALinkVerifies | src/auth/service.rs:969-985 | Using a link again verifies the account if the provider reports its own address |
| AccountEffects.NewSocialUser | src/auth/service.rs:939-967 | An unlinked identity with a free address makes a new verified account without a password, linked to it |
| AccountEffects.SocialSignInByAddress | src/auth/service.rs:1003-1043 | An unlinked identity enters, verifies and links the active unverified account with its address, and is refused by any other, with the reason |
| AccountEffects.LinkEffect | src/auth/service.rs:1049-1102 | What linking stores, when it verifies, and each of its refusals as an if-and-only-if |
| AccountEffects.TicketEffect | src/auth/service.rs:1386-1408 | A ticket is for its user and for five minutes |
| AccountEffects.ExchangeIff | src/auth/service.rs:1410-1452 | Each answer to a presented ticket as an if-and-only-if, with what is committed |
| AccountEffects.ChangeEmailIff | src/user/service.rs:212-238 | An address change goes through if and only if the code was accepted, the account exists and no other has the address; one row changes |
| AccountEffects.ResetPasswordIff | src/auth/service.rs:649-721 | Each answer to a password reset as an if-and-only-if; only that password changes |
| AccountEffects.ChangePasswordIff | src/auth/service.rs:723-788 | A change goes through if and only if the account is active, the current password matches and the new one differs |
| AccountEffects.SetPasswordIff | src/auth/service.rs:790-840 | A first password is set if and only if the account is active and has none |
| AccountEffects.RowEdits | src/auth/service.rs:284-288 | Touching an account, as resending a code does, changes that one field of one row; so does suspending it |
| AccountEffects.CleanupEffect | src/shared/maintenance.rs:100-112 | Exactly the accounts unverified for seven days and the expired tickets go; everything else stays |
| Addresses.Book.CreateAddress | src/address/service.rs:23-72 | The statements end in the specified state with never two defaults between them |
| Addresses.Book.UpdateAddress | src/address/service.rs:75-146 | Likewise, with the replacement chosen before the row changes |
| Addresses.Book.DeleteAddress | src/address/service.rs:149-185 | Likewise, with the replacement promoted after the delete |
| Addresses.Book.SelectReplacementAddressId | src/address/service.rs:200-218 | The newest other address of the user, ties broken by id, or none |
| Addresses.CreateDefault | src/address/service.rs:35-66 | Where the default is after creating an address |
| Addresses.UpdateDefault | src/address/service.rs:90-140 | Where the default is after an update: here, on the newest other, or unmoved; un-setting the only address keeps it |
| Addresses.UpdateDetails | src/address/service.rs:90-140 | An update touches the details of its own row only |
| Addresses.CreateIff | src/address/service.rs:23-72 | Creating succeeds for an existing user, adds one row, and changes no other but the user's default flags |
| Addresses.UpdateIff | src/address/service.rs:75-146 | Updating succeeds for the user's own address only; rows of other users are untouched |
| Addresses.DeleteIff | src/address/service.rs:149-185 | Deleting succeeds for the user's own address only and removes that row; rows of other users are untouched |
| Addresses.DeleteDefault | src/address/service.rs:160-182 | Deleting the default promotes the newest remaining address; deleting another moves nothing |
| Addresses.ExactlyOneDefault | src/address/service.rs:23-185 | After every sequence of operations a user with an address has exactly one default |
| Addresses.RunKeepsInv | src/address/service.rs:23-185 | At most one default per user, and one if there is an address, survives every run |
## Left out

- Isolation anomalies below whole transactions, deadlocks and lock timeouts; statements interleave only as far as row locks allow.
- HTTP handlers, cookies, redirects, configuration parsing, tracing and deployment files.
- Provider sign-in requests, image hosting, e-mail delivery, signed access tokens and random generation: a fetched identity, an uploaded image or a presented code is an input.
- The values of SHA-256 and Argon2 digests; only that they tell inputs apart is used.
- The u32 counter of the limiter, whose overflow a u32 limit already prevents, and its mutex.
- The Unicode tables themselves, of which only the laws in `Slugs.Lawful` are used.
- Registry.GenerateUniqueSlug: requires fewer taken slugs than there are u32 suffixes; beyond that the source's counter overflows.
- The search order among orders uses the row position for `created_at, id`; creation times do not decrease along it.
- Names of statuses and tracking numbers as text and their normalisation, the address snapshot on an order, the slip's public id and the tracking e-mail.
- Table.RedeemCode: the effect of an accepted code on the account is reduced to which of the three outcomes the caller's checks lead to; the account side is in `Accounts`.
- The deletes that clear a pending code after a failed e-mail are one operation, `VerificationCodes.Clear`.
- Names and images of pending registrations; passwords are compared as already trimmed.
- Registry.DeleteCategory: the number of assigned products is an input, as products' categories are not modelled.
- Removing expired uploads and retired images from the image host, and the queue of retired images.
- Products with image fields but no image rows (`src/product/service.rs:835-866`), which cannot arise from empty tables.
- Category-name uniqueness, descriptions, prices' display, and other plain fields of products and categories; categories count as always active.
- Store.AttachProductImage: the image address and its public id arrive together, as the handler guarantees.
- Sessions in `Accounts` record who was ever given tokens; the tokens themselves, and their deletion when a password changes, are in `RefreshTokens`.
- Cart editing, profile edits, listings, search, filters and pagination.
