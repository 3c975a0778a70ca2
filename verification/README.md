# Verified models of the storefront's protocols and codecs

This project states in Dafny what the storefront API and its inventory service do where the code is
hardest to get right, and proves that it does so: the PDF receipt writer, order placement with
idempotency keys and cart checkout, warehouse reservation and restocking, SigV4 canonicalisation,
bearer and session tokens, OAuth codes with PKCE, the fulfilment and refund lifecycle, tickets with
their SLA sweep, reply threads and keyset paging. Nothing here runs the services.

`dafny verify dfyconfig.toml` checks everything.

## How it is built

- **Statements as functions.** Each SQL statement, or each stretch of a handler between two awaits, is a
  function on the tables. The services' own methods are Dafny methods of a class with the same fields and
  loops, proved against those functions, and what the functions amount to is stated again without them: by
  sums, positions, literal constants and readers. Each machine is tied back the same way: a request left alone
  does what its handler does (`RequestAlone`, `EveryCallAlone`, `HandlerAlone`, `RestockRuns`, `SweepAlone`).
- **Interleavings as machines.** For every protocol that runs concurrently, a `State` holds the tables and
  one `Thread` per request; `Next` takes a request's next statement, `Apply` adds what else may happen
  (aborts, crashes, clock ticks, deletions, other users' edits), and `Run` is any sequence of those. Theorems
  named `EveryRun...` hold of every run of any number of requests.
- **Order transactions** keep their writes to themselves until they commit, at PostgreSQL's read committed
  level. A conditional UPDATE looks at the committed row first: one that fails the condition is skipped at once,
  one that meets it is waited for while another open transaction holds it (`AwaitStock`, `AwaitCoupon`), and the
  condition is looked at again when the row is free. The insert into the unique key index waits for an open
  transaction that has inserted the key. `Serializable` shows that every interleaving equals executing the
  committed requests one at a time, and conservation follows from that.
- **History fields** (`drawn`, `owed`, `family`, `issuer`, `consent`, `log`, `clears`, `stage`) record where
  something came from so that it can be stated; no branch of the modelled code reads them, except `stage`,
  which stands for the point at which a background continuation is suspended.
- **Independent readers.** The receipt is checked by a reader written from ISO 32000-1 that shares nothing
  with the writer but byte arithmetic.

| files | component |
|---|---|
| Wrappers, Bytes, Search, Sums, Sorting, Splitting | results, code units and numerals, finding rows, sums over tables, sorting, split and join |
| ReceiptWriter, ReceiptReader, ReceiptContent, ReceiptStructure, ReceiptRoundTrip | the receipt: writing, reading, text, structure, both together |
| Orders, Cart | order placement and the cart with nothing beside them; the services' methods |
| OrderMachine, OrderSafety, Idempotency, CheckoutReplay, CreateReplay, OrderProgress, Deadlock, OrderAlone, OrderRequests, OrderScenarios | order placement interleaved statement by statement |
| PercentEncoding, CanonicalRequest, CanonicalText | SigV4: encoding, the canonical request, and that text read back position by position |
| Warehouse, WarehouseRuns, WarehouseAlone, WarehouseRaces | stock levels, reservations, restocks; their interleavings; what they come to alone, and what a reservation gets in a race |
| Tokens, TokenRuns, TokenAlone | token records and bearer flows; logins, rotations, guards and account deletion interleaved, and each alone |
| Oauth, OauthRuns, OauthAlone | codes and refresh tokens; their handlers interleaved at the awaits, and each alone |
| Lifecycle, FulfilRace | fulfilment, return requests and refunds with their continuations; starting fulfilment statement by statement |
| Tickets, SlaSweepRuns | ticket handlers, one sweep; sweeps interleaved with everything else |
| ReplyForest | reply threads, as functions and on the heap |
| CursorWalk | review paging, its cursor and the walk over all pages |

## What turned out not to hold

Each of these has a lemma with the input or run that shows it, and a theorem with the condition under which
the property does hold.

- A receipt comes back unchanged only for text below 256 without carriage returns (`ReceiptIsExact`): the
  'ascii' conversion keeps the low byte of a code unit, and a PDF literal reads CR and CR LF as LF. Its
  cross-reference entries are twenty bytes only for offsets below ten to the tenth (`EntryIsTwentyBytes`).
- The cart's comment that "cart is empty" must never block a legitimate replay holds of every checkout whose
  first lookup comes once the order is committed, whatever runs beside it (`LaterCheckoutReplays`). A checkout
  of the order's own user is refused, as "cart is empty" (`CheckoutReplayCanMiss`) or as a conflict with its
  own order (`CheckoutReplayCanConflict`), exactly when its first lookup came before that commit and it then
  read an empty cart, or lines that are not the order's and that its own transaction did not fail on
  (`RefusedExactly`; `CheckoutAnswers` has every answer).
- Orders are free of deadlock when they list products in one common order (`NoDeadlock`, `EveryRunCanFinish`);
  nothing in the code makes them, and opposite orders can deadlock (`OppositeOrdersDeadlock`). Exactly which
  orders and checkouts can: `DeadlockExactly`, for any number of them, any stock, any pool, and carts edited or
  left alone, and `TwoDeadlockExactly` for two. Naming two products first in opposite orders is necessary
  (`CrossIsOpposite`) but not sufficient: a product both lists name before those keeps the two apart
  (`GateKeepsApart`), and a line that asks for more than there is fails instead of waiting. A second pooled
  connection jams a pool of any size (`PoolJams`).
- A racing reservation may backorder stock that is on hand (`ShortDespiteStock`). In every run it gets exactly
  what the rows it read hold whose update did not miss (`ReservedIsKept`), an update misses exactly when its
  row has been lowered below the amount asked (`MissesExactly`), and with no competing reservation of the
  product between read and updates none does (`UndisturbedGetsStock`).
- A record of a deleted account can outlive both revocation sweeps (`RecordOutlivesDeletion`): one issued by a
  request that read the account before it was deactivated (`SurvivorsWereInFlight`). A live record can be left
  exactly when such a request is in flight at the second sweep (`SurvivorIffInFlight`).
- Two fulfilments that both read "pending" before either writes both start (`FulfilTwice`). Statement by
  statement, a pending order gets two jobs exactly when two handlers read it before the first of them saved it
  (`TwoJobsExactly`); with handlers as single steps there is one (`EveryRunIsOrderly`).
- A cursor walk is exact for every page size if and only if the order by microseconds agrees with the order
  by milliseconds and id (`WalkExact`, `SameMillisecond`), and at one page size if and only if the two agree at
  that size's page boundaries (`WalkExactAt`).

## Model

| member | source | states |
|---|---|---|
| `ReceiptWriter.ReceiptLines` | apiV2/src/orders/order-receipt.util.ts:40-61 | the loops print the lines of `LinesOf`, whose text `LinesSay` reads back amount by amount |
| `ReceiptWriter.MoneyIsInjective` | apiV2/src/orders/order-receipt.util.ts:49-61 | two amounts are printed alike only if they are the same number of cents, sign included |
| `ReceiptWriter.MoneyReads` | apiV2/src/orders/order-receipt.util.ts:49-61 | a reader of sign, digits, a dot and two digits takes a printed amount for its number of cents, whatever its sign |
| `ReceiptWriter.LinesSay` | apiV2/src/orders/order-receipt.util.ts:40-61 | read as text, the receipt has the order's heading; line 5+i is item i's name, or else product id, its quantity, its unit price and their product; a discount line is there exactly for a discount and reads as it; and the last line's amount is the sum of price times quantity less the discount |
| `ReceiptWriter.BuildContentStream` | apiV2/src/orders/order-receipt.util.ts:8-19 | the loop over the lines yields the operator text that the content-stream lemmas read back |
| `ReceiptWriter.Paginate` | apiV2/src/orders/order-receipt.util.ts:26-32 | the loop yields exactly the forty-line pages whose concatenation and number `PagesOfLines` fixes |
| `ReceiptWriter.BuildOrderReceiptPdf` | apiV2/src/orders/order-receipt.util.ts:39-139 | the file is the assembled objects of the order's pages, which `ReceiptReadsBack` reads back to its lines |
| `ReceiptWriter.AssembleFile` | apiV2/src/orders/order-receipt.util.ts:111-138 | tracking `cursor`, `offsets` and `xref` in loops gives the file whose offsets the structure lemmas check |
| `ReceiptContent.EscapeIsPerUnit` | apiV2/src/orders/order-receipt.util.ts:4-6 | the three chained replacements escape each of backslash and the parentheses once, and nothing twice |
| `ReceiptContent.LiteralOfEscaped` | apiV2/src/orders/order-receipt.util.ts:4-6 | a PDF reader's literal-string rule (ISO 32000-1, 7.3.4.2) reads an escaped line back and stops at its own parenthesis, for any text below 256 |
| `ReceiptContent.StreamShowsLines` | apiV2/src/orders/order-receipt.util.ts:8-19 | a tokenising reader of a page's content stream shows exactly the page's lines, end-of-lines normalised |
| `ReceiptContent.NormaliseFixed` | apiV2/src/orders/order-receipt.util.ts:4-19 | a line is read back unchanged exactly when it holds no carriage return |
| `ReceiptStructure.ObjectInPlace` | apiV2/src/orders/order-receipt.util.ts:115-128 | at the recorded offset of object i the file really starts `i 0 obj` and then its body |
| `ReceiptStructure.EntryIsTwentyBytes` | apiV2/src/orders/order-receipt.util.ts:131-134 | a cross-reference entry is twenty bytes exactly when its offset is below ten to the tenth |
| `ReceiptStructure.EntryNamesObject` | apiV2/src/orders/order-receipt.util.ts:130-134 | entry i of the table, read as ten digits at its fixed place, is the offset of object i |
| `ReceiptStructure.StartXrefReads` | apiV2/src/orders/order-receipt.util.ts:130-138 | a reader going back from the end of the file finds the number the writer put there, whatever precedes it |
| `ReceiptStructure.TableReads` | apiV2/src/orders/order-receipt.util.ts:130-138 | `startxref` leads to a table whose size and entries a reader takes for the writer's, and to root object 1 |
| `ReceiptStructure.ReferencesRead` | apiV2/src/orders/order-receipt.util.ts:72-79 | the /Kids array reads as the consecutive page numbers, for any number of pages |
| `ReceiptStructure.PageReads` | apiV2/src/orders/order-receipt.util.ts:79-86 | a page object reads as its parent, its font number and its contents number |
| `ReceiptStructure.StreamReads` | apiV2/src/orders/order-receipt.util.ts:93-107 | /Length is the length of the stream, so a reader takes exactly the compressed bytes |
| `ReceiptRoundTrip.NumbersResolve` | apiV2/src/orders/order-receipt.util.ts:63-107 | supporting fact: each /Kids, /Font and /Contents number names the page, font and stream object meant for that page |
| `ReceiptRoundTrip.PagesOfLines` | apiV2/src/orders/order-receipt.util.ts:24-32 | pages concatenate to the lines, none lost or reordered, and there are ceil(n/40) of them |
| `ReceiptRoundTrip.ReceiptReadsBack` | apiV2/src/orders/order-receipt.util.ts:63-139 | an independent reader (header, startxref, table, page tree, inflate, tokens, literals) gets the order's lines back, up to end-of-line normalisation, for every text below 256 and offsets below ten to the tenth |
| `ReceiptRoundTrip.ReceiptIsExact` | apiV2/src/orders/order-receipt.util.ts:63-139 | the lines come back unchanged if and only if none holds a code unit above 255 or a carriage return |
| `Orders.TakeExact` | apiV2/src/orders/orders.service.ts:176-205 | all of an order's decrements succeed exactly when every listed product exists and has stock for its total demand, however lines repeat |
| `Orders.TakeTakesDemand` | apiV2/src/orders/orders.service.ts:183-195 | after the decrements each product is lower by exactly the order's demand for it, prices and other products untouched |
| `Orders.PersistExact` | apiV2/src/orders/orders.service.ts:165-235 | an order goes through exactly when its products cover its demand, its coupon is redeemable at the subtotal of the current prices, and its key is unused |
| `Orders.PersistRecords` | apiV2/src/orders/orders.service.ts:183-235 | what a placed order changes and nothing else: stock by its demand, one use of its coupon, and one order recording the request, the prices of that moment and the organisation |
| `Orders.PlacedExactly` | apiV2/src/orders/orders.service.ts:165-235 | an order goes through if and only if every listed product exists with stock for the sum of its lines, the coupon (if any) is one the user may use, unexpired, not used up and with a minimum the sum of price times quantity meets, and no order has its key; its discount is the nearest cent of that sum's share or the fixed amount, and it is recorded line by line |
| `Orders.RefusedForReason` | apiV2/src/orders/orders.service.ts:165-314 | each error names its reason: the first line that is missing or short, or, with every line covered, the coupon's first failing check against that sum, or the key in use |
| `Orders.DiscountIsNearest` | apiV2/src/orders/orders.service.ts:309-313 | supporting fact: a percent discount is the nearest whole cent of the subtotal's share, a fixed one its own value |
| `Orders.SameItemsExact` | apiV2/src/orders/orders.service.ts:38-54 | the sorted-string comparison holds exactly when the two lists are equal as multisets of product and quantity |
| `Orders.OrdersService.TakeItems` | apiV2/src/orders/orders.service.ts:173-205 | the loop of conditional decrements gives the specification's products, subtotal and prices, or its first error; `DemandIsSum` and `SubtotalIsSum` say what sums those are |
| `Orders.OrdersService.PersistOrderAtomically` | apiV2/src/orders/orders.service.ts:165-235 | goes through if and only if stock, coupon minimum against the sum of price times quantity, and key allow it, and then records exactly that (`Placed`); otherwise the error is the reason (`RefusedFor`) and every table is as before |
| `Orders.OrdersService.ApplyCoupon` | apiV2/src/orders/orders.service.ts:267-314 | the coupon checks in order, the conditional increment, and the discount; on error the coupons are as before |
| `Orders.OrdersService.FindExistingByIdempotencyKey` | apiV2/src/orders/orders.service.ts:148-157 | the lookup answers as `FindExisting`, whose meaning `LookupDecides` gives |
| `Orders.CreateIsRight` | apiV2/src/orders/orders.service.ts:87-138 | with a non-empty key carried by a first order the tables stay and the answer is that order, exactly when user and multiset of lines agree, or else a conflict; otherwise it is a new last order, placed as `PlacedExactly` says, or the error with the tables as before |
| `Orders.OrdersService.Create` | apiV2/src/orders/orders.service.ts:87-138 | the method, through the lookup and the transaction, does what `CreateIsRight` says |
| `Cart.CheckoutAllOrNothing` | apiV2/src/cart/cart.service.ts:97-139 | supporting fact: only a newly created order changes anything: it holds the cart's lines, is the last order, and empties the cart; its coupon is in `CheckoutIsRight` |
| `Cart.CheckoutIsRight` | apiV2/src/cart/cart.service.ts:97-139 | a key carried by a first order is answered with it to its own user and as a conflict to anyone else, whatever the cart holds; else an empty cart is refused; else the order is created from the cart's lines with the checkout's key, coupon and clock reading, and exactly a new order empties exactly that cart |
| `Cart.RetryReplays` | apiV2/src/cart/cart.service.ts:107-115 | repeating a keyed checkout that created an order replays that order and changes nothing, whatever the cart holds by then |
| `Cart.AddAdds` | apiV2/src/cart/cart.service.ts:49-60 | one line per product is kept and exactly the added product's quantity grows, by the quantity added |
| `Cart.CartService.AddItem` | apiV2/src/cart/cart.service.ts:41-60 | unknown products are refused; otherwise the user's lines become `Add`'s |
| `Cart.CartService.Checkout` | apiV2/src/cart/cart.service.ts:102-139 | the method, through order placement, does what `CheckoutIsRight` says |
| `OrderSafety.OnlyCommitWrites` | apiV2/src/orders/orders.service.ts:106-116 | supporting fact: until it commits, an open order transaction changes no committed row and no log entry |
| `OrderSafety.CommitIsPersist` | apiV2/src/orders/orders.service.ts:165-235 | a commit is exactly the serial transaction on the rows of that moment: no check made earlier has gone stale |
| `OrderSafety.ApplyKeepsInv` | apiV2/src/orders/orders.service.ts:165-314 | every statement, commit, rollback and abort of any request keeps the invariant that makes the commit serial |
| `OrderSafety.Serializable` | apiV2/src/orders/orders.service.ts:106-116 | every interleaving leaves the tables of executing the committed requests one at a time in commit order |
| `OrderSafety.SerialConserves` | apiV2/src/orders/orders.service.ts:183-235 | serial execution conserves stock and coupon counts and keeps keys unique |
| `OrderSafety.EveryRunConserves` | apiV2/src/orders/orders.service.ts:159-164 | in every interleaving: stock never goes negative and with the committed quantities adds up to the initial stock; a coupon's count is its committed redemptions and within its limit; keys are unique; failed orders leave no trace |
| `OrderAlone.AloneIsSerial` | apiV2/src/orders/orders.service.ts:165-235 | the statement machine left alone ends as the serial transaction: committed with its tables, or rolled back with its error |
| `OrderRequests.RequestAlone` | apiV2/src/orders/orders.service.ts:87-138 | with no transaction open, a POST /orders or a checkout run statement by statement, lookups, transaction, rollback and cart clearing included, ends with the tables, carts and answer of the sequential handler |
| `OrderProgress.EveryStepIsProgress` | apiV2/src/orders/orders.service.ts:87-138 | every statement brings the requests closer to their answers by a well-founded measure, so no run steps forever |
| `OrderProgress.SomeOpenStep` | apiV2/src/orders/orders.service.ts:159-164 | if all orders list products in one common order, some open transaction can always take its next statement |
| `OrderProgress.NoDeadlock` | apiV2/src/orders/orders.service.ts:214-223 | and some unfinished request can always step, for any pool of at least one connection |
| `OrderProgress.AllRequestsFinish` | apiV2/src/orders/orders.service.ts:214-223 | so from every such state all requests can be brought to their answers |
| `OrderProgress.EveryRunCanFinish` | apiV2/src/orders/orders.service.ts:159-164 | so while requests and cart edits keep one common order, every run, aborts included, can be continued until all requests are answered |
| `OrderScenarios.PoolJams` | apiV2/src/orders/orders.service.ts:214-220 | for a pool of any size, reading the membership through a second connection lets that many orders jam forever |
| `OrderScenarios.OppositeOrdersDeadlock` | apiV2/src/orders/orders.service.ts:176-195 | the common-order hypothesis is needed: two orders listing two products in opposite orders can wait for each other |
| `Deadlock.StuckExactly` | apiV2/src/orders/orders.service.ts:176-195 | no open transaction can step exactly when each waits for the row of a product another one holds: coupons, keys and connections never block all of them |
| `Deadlock.StuckForever` | apiV2/src/orders/orders.service.ts:176-195 | and then none of them ever moves again, whatever else runs, unless the database aborts one |
| `Deadlock.DeadlockExactly` | apiV2/src/orders/orders.service.ts:159-195 | any number of orders and checkouts, with any stock, any pool, and carts edited or not, can reach such a state if and only if some of them can hold first parts of their lists that share no product, while each asks next, within the stock, for a product another one holds |
| `Deadlock.TwoDeadlockExactly` | apiV2/src/orders/orders.service.ts:176-195 | two requests whose lines nobody edits can deadlock if and only if their lists cross at lines both can come to and the stock covers |
| `Deadlock.ShortStockKeepsApart` | apiV2/src/orders/orders.service.ts:183-195 | lists crossing only at lines that ask for more than the stock do not deadlock, because such an update affects no row and the order fails at once |
| `Deadlock.CrossIsOpposite` | apiV2/src/orders/orders.service.ts:176-195 | lists that cross name two products first in opposite orders |
| `Deadlock.GateKeepsApart` | apiV2/src/orders/orders.service.ts:176-195 | the converse fails: two lists naming two products in opposite orders never cross when both name a third one first |
| `OrderScenarios.CheckoutReplayCanMiss` | apiV2/src/cart/cart.service.ts:107-123 | a concurrent same-user checkout replay can be answered "cart is empty" instead of with the order: the first way `RefusedExactly` allows |
| `OrderScenarios.CheckoutReplayCanConflict` | apiV2/src/cart/cart.service.ts:107-134 | and, when the shopper has put something else in the cart, as a conflict with its own order: the second way |
| `Idempotency.LookupDecides` | apiV2/src/orders/orders.service.ts:148-157 | a lookup that finds the key replays exactly for the same user and, where lines are compared, the same multiset of lines |
| `Idempotency.EveryRunAnswers` | apiV2/src/orders/orders.service.ts:87-138 | in every run each committed order belongs to the one request that answers "created" for it, and replays name an order of their user and key |
| `Idempotency.OneOrderPerKey` | apiV2/src/orders/orders.service.ts:125-136 | in every interleaving of pre-check, insert and repeated lookup a key has at most one order, one request created it, and all replays answer with it |
| `Idempotency.CartClearedOnce` | apiV2/src/cart/cart.service.ts:135-137 | for one key at most one clearing of a cart happens, by the request that created the order |
| `Idempotency.LaterCreateReplays` | apiV2/src/orders/orders.service.ts:323-342 | once the order is committed, a later request with its key gets it exactly when user and lines agree, and a conflict otherwise |
| `CreateReplay.LaterCreateIsDecided` | apiV2/src/orders/orders.service.ts:95-104 | in every run, a keyed request whose lookup comes after the commit gets that order exactly for the same user and lines, and a conflict otherwise |
| `CreateReplay.CreateAnswers` | apiV2/src/orders/orders.service.ts:87-138 | in every run, the answer of a finished keyed request whose key's order is committed: by user and lines if one of its lookups, the one after a unique violation included, found the key; else it created that order or failed for another reason |
| `CreateReplay.CreateRefusedExactly` | apiV2/src/orders/orders.service.ts:125-137 | in every run it is refused if and only if the order is another user's or has other lines and it did not fail in its own transaction |
| `CheckoutReplay.LaterCheckoutReplays` | apiV2/src/cart/cart.service.ts:105-115 | in every run, a keyed checkout whose first lookup comes after the commit is answered with the order if it is its user's and as a conflict if not, never "cart is empty" |
| `CheckoutReplay.CheckoutAnswers` | apiV2/src/cart/cart.service.ts:97-139 | in every run, the answer of a finished keyed checkout whose key's order is committed, decided by whether its first lookup missed, what it read from the cart and whether a later lookup found the key |
| `CheckoutReplay.RefusedExactly` | apiV2/src/cart/cart.service.ts:105-123 | in every run, the owner's checkout is refused (cart is empty, or conflict) if and only if its first lookup preceded the commit and it read an empty cart, or lines differing as a multiset with a later lookup finding the key (that is, without failing in its own transaction) |
| `PercentEncoding.DecodeOfEncode` | apiV2/src/signed/signature.ts:49-65 | decoding the encoding of any text without lone surrogates gives the text back (RFC 3986, 2.1 and 2.3) |
| `PercentEncoding.EncodeDecodeEncode` | apiV2/src/signed/signature.ts:49-65 | encoding, decoding and encoding again is encoding once, for every text, lone surrogates included |
| `PercentEncoding.EncodeExact` | apiV2/src/signed/signature.ts:49-57 | two texts have one encoding exactly when they agree after lone surrogates became U+FFFD |
| `CanonicalText.EncodingSpells` | apiV2/src/signed/signature.ts:49-57 | every encoding is its text's UTF-8 bytes (RFC 3629, 3), each a letter, digit, -, ., _ or ~ as itself or a percent sign and two upper-case hexadecimal digits of its value |
| `CanonicalText.PlainDecodes` | apiV2/src/signed/signature.ts:59-65 | supporting fact: text without percent signs decodes to itself with each plus a space |
| `CanonicalText.EscapeDecodes` | apiV2/src/signed/signature.ts:59-65 | supporting fact: an escape of a byte below 128, in either case of its digits, decodes to that character and what follows to what follows |
| `CanonicalText.MalformedStays` | apiV2/src/signed/signature.ts:59-65 | supporting fact: text whose first percent sign is followed by fewer than two characters is left alone, plus signs included |
| `Splitting.SplitOfJoin` | apiV2/src/signed/signature.ts:130-148 | splitting undoes joining parts free of the separator |
| `Sorting.SortCanonical` | apiV2/src/signed/signature.ts:144-146 | two sequences sort to the same one exactly when they are equal as multisets |
| `CanonicalRequest.PairsOfCanonical` | apiV2/src/signed/signature.ts:134-148 | the canonical query reads back as its own sorted pairs: joining loses nothing; `ParametersAscend` has their order |
| `CanonicalText.ParametersAscend` | apiV2/src/signed/signature.ts:144-146 | of any two parameters of a canonical query the earlier has, at the first place their names differ, the smaller code unit or no more of them; and of equal names the values stand so |
| `CanonicalText.PartReads` | apiV2/src/signed/signature.ts:137-143 | supporting fact: a part is split at its first equals sign, or is a name with an empty value, and each half is decoded and encoded |
| `CanonicalRequest.CanonicalQueryExact` | apiV2/src/signed/signature.ts:134-148 | two queries canonicalise to one string exactly when their encoded pairs agree as a multiset |
| `CanonicalRequest.ReorderingIsInvisible` | apiV2/src/signed/signature.ts:134-148 | reordering the `&` parts, or adding and dropping empty ones, does not change the canonical query |
| `CanonicalRequest.CanonicalQueryIdempotent` | apiV2/src/signed/signature.ts:134-148 | canonicalising a canonical query returns it |
| `CanonicalRequest.CanonicalIsLines` | apiV2/src/signed/signature.ts:149-160 | the joined request is one line per component and header, for any number of signed headers |
| `CanonicalText.ValueIsItsWords` | apiV2/src/signed/signature.ts:149-151 | a header value becomes its words, maximal runs without white space, joined by single spaces |
| `CanonicalText.UpperIsUpper` | apiV2/src/signed/signature.ts:154 | supporting fact: the method has the letters a to z raised and everything else as it was |
| `CanonicalText.PathReads` | apiV2/src/signed/signature.ts:130-133 | supporting fact: split at its slashes the canonical path is the encoding of each of the path's segments |
| `CanonicalText.RequestReads` | apiV2/src/signed/signature.ts:149-160 | split at its newlines a canonical request is the upper-case method, the path, the query, a name, a colon and its value's words for each signed header, an empty line, the signed-header list and the digest, for any number of headers |
| `CanonicalRequest.CanonicalRequestUnambiguous` | apiV2/src/signed/signature.ts:124-160 | equal canonical requests have equal method, canonical path, query pairs, signed-header list, normalised value of every signed header, and payload hash |
| `CanonicalRequest.CanonicalPathExact` | apiV2/src/signed/signature.ts:130-133 | two paths canonicalise alike exactly when their segments are the same texts |
| `Warehouse.AttemptConserves` | inventory-service/src/reservations/reservations.service.ts:84-100 | one conditional update lowers its product's stock by exactly what it reports taken, and touches no other product |
| `Warehouse.ListingIsStock` | inventory-service/src/reservations/reservations.service.ts:70-73 | what a reservation reads is the product's rows, each once, largest first, adding up to its stock |
| `WarehouseAlone.ListingExactly` | inventory-service/src/reservations/reservations.service.ts:70-73 | every row of the product and no other, the larger quantity first and of equal quantities the smaller id |
| `Warehouse.GreedyTotal` | inventory-service/src/reservations/reservations.service.ts:84-103 | the largest-first takes add up to the smaller of the request and the stock read, and fit each row |
| `WarehouseAlone.GreedyExactly` | inventory-service/src/reservations/reservations.service.ts:84-103 | from each level is taken what the levels before it could not give, as far as it goes: a closed form by position |
| `Warehouse.GreedyTouchesFewest` | inventory-service/src/reservations/reservations.service.ts:59-65 | no allocation over the same rows that moves as much touches fewer of them |
| `Warehouse.ReserveAloneIsBest` | inventory-service/src/reservations/reservations.service.ts:66-104 | run alone on a tracked product it reserves min(requested, on hand), from the product's own rows, touching the fewest; an untracked product is reserved in full without any update |
| `Warehouse.ReserveItemsSplits` | inventory-service/src/reservations/reservations.service.ts:25-57 | every answered line splits its request into reserved and backordered, and names the backorder that carries the shortfall |
| `WarehouseAlone.ReserveExactly` | inventory-service/src/reservations/reservations.service.ts:25-104 | each item of a list gets all it asks of an untracked product, and otherwise the smaller of that and what earlier items have left of the stock; the rest is a backorder of its own for that product and order, in the order of the items; and the stock falls by exactly what was given |
| `Warehouse.RestockAdds` | inventory-service/src/stock/stock.service.ts:51-104 | a restock keeps one row per product and warehouse and raises exactly its product's stock by its quantity |
| `WarehouseAlone.RestockExactly` | inventory-service/src/stock/stock.service.ts:51-104 | exactly the row of that product and warehouse is higher by the quantity, or one such row is new with it; every other row is as it was |
| `Warehouse.InventoryService.TakeFrom` | inventory-service/src/reservations/reservations.service.ts:84-100 | supporting fact: one pass of the loop over the levels is the conditional update of `AttemptConserves` |
| `Warehouse.InventoryService.ReserveOneProduct` | inventory-service/src/reservations/reservations.service.ts:66-104 | the loop over the stale rows gives the rows and the amount that `ReserveAloneIsBest` and `GreedyExactly` describe |
| `Warehouse.InventoryService.AnswerItem` | inventory-service/src/reservations/reservations.service.ts:29-50 | one pass of `reserve`'s loop: rows, backorders and line |
| `Warehouse.InventoryService.Reserve` | inventory-service/src/reservations/reservations.service.ts:25-57 | the loop over the items gives the rows, backorders and lines that `ReserveExactly` describes |
| `Warehouse.InventoryService.Restock` | inventory-service/src/stock/stock.service.ts:51-104 | unknown warehouses are refused and change nothing; otherwise the row `RestockExactly` names is raised or inserted and the event appended |
| `WarehouseRuns.IncreaseKeepsTable` | inventory-service/src/stock/stock.service.ts:57-95 | whichever of update, insert and second update takes effect, the increase happens once and is never lost |
| `WarehouseRuns.ApplyKeepsInv` | inventory-service/src/reservations/reservations.service.ts:25-104 | every statement of any reservation or restock keeps one row per pair, non-negative quantities and exact lines |
| `WarehouseRuns.EveryRunBalances` | inventory-service/src/reservations/reservations.service.ts:59-104 | in every interleaving, crashes included: stock and what was drawn equal initial stock, logged restocks and what restocks in flight still owe the log; backorders are the lines' shortfalls; every line is reserved or backordered |
| `WarehouseRuns.QuietRunsConserve` | inventory-service/src/stock/stock.service.ts:57-103 | with nothing in flight, a tracked product's stock and reservations equal its initial stock and the sum of its restock events |
| `WarehouseRuns.TrackedStaysDrawn` | inventory-service/src/reservations/reservations.service.ts:75-82 | a product with a row stays tracked, and every line for it drew from rows exactly what it reports reserved |
| `WarehouseRuns.UndisturbedIsAlone` | inventory-service/src/reservations/reservations.service.ts:66-104 | a reservation stepping with nothing beside it ends as the sequential one; `UndisturbedGetsStock` has what may run beside it |
| `WarehouseAlone.RestockRuns` | inventory-service/src/stock/stock.service.ts:51-104 | a restock stepping with nothing beside it raises or inserts exactly its pair's row and logs its event once, or is refused for an unknown warehouse and changes nothing |
| `WarehouseRuns.ShortDespiteStock` | inventory-service/src/reservations/reservations.service.ts:59-65 | a racing reservation can be answered with a backorder while the product is still on hand |
| `WarehouseRaces.ReservedIsKept` | inventory-service/src/reservations/reservations.service.ts:59-104 | in every run an item is reserved exactly min(requested, what the read rows hold whose update did not miss), is backordered exactly when that is less than requested, and falls short of the stock read exactly when it is less than both; an untracked product is reserved in full |
| `WarehouseRaces.MissesExactly` | inventory-service/src/reservations/reservations.service.ts:85-101 | an update misses exactly when the row holds less than `take` at that moment, and then takes nothing |
| `WarehouseRaces.UndisturbedGetsStock` | inventory-service/src/reservations/reservations.service.ts:59-65 | in every run, if nothing else lowers a row of the product between the item's read and its last update, it gets min(requested, the product's stock at the read), whatever restocks, crashes and other products' reservations run |
| `Tokens.TokenRecordsService.Issue` | apiV2/src/auth/token-records.service.ts:13-21 | a live row for the user is appended and its id returned |
| `Tokens.TokenRecordsService.AssertLive` | apiV2/src/auth/token-records.service.ts:24-30 | succeeds exactly for a known, unrevoked, unexpired row |
| `Tokens.TokenRecordsService.ClaimForRotation` | apiV2/src/auth/token-records.service.ts:56-70 | revokes and returns exactly a live row, and otherwise changes nothing and fails |
| `Tokens.TokenRecordsService.Revoke` | apiV2/src/auth/token-records.service.ts:32-34 | only the named row is revoked |
| `Tokens.TokenRecordsService.RevokeAllForUser` | apiV2/src/auth/token-records.service.ts:41-48 | afterwards none of the user's rows is live; rows of others and earlier revocation times are untouched |
| `Tokens.AuthService.Login` | apiV2/src/auth/auth.service.ts:95-107 | issues exactly for valid credentials of an active account |
| `Tokens.AuthService.Refresh` | apiV2/src/auth/auth.service.ts:109-118 | succeeds if and only if the row was unrevoked and unexpired and its user is known and active; then exactly one row is appended, for that user, unrevoked and expiring a refresh ttl from now; the presented row is revoked exactly when it was live; no other row changes |
| `Tokens.AuthService.Logout` | apiV2/src/auth/auth.service.ts:120-127 | only the presented token's row is revoked |
| `Tokens.AuthService.StartDeletion` | apiV2/src/jobs/jobs.service.ts:143-149 | an active account is deactivated and all its rows revoked, otherwise nothing changes |
| `Tokens.RotatesOnce` | apiV2/src/auth/token-records.service.ts:50-70 | supporting fact: whatever a first refresh with a token did, a second fails and changes nothing |
| `TokenAlone.EveryCallAlone` | apiV2/src/auth/auth.service.ts:95-127 | each request of the token machine left alone (login, session login, rotation, session renewal, logout, deletion, the three guards) issues, admits, revokes or refuses for exactly the tokens and accounts stated, with the kind, ttl, parent and family of every new row, and changes nothing else |
| `TokenAlone.RotationIsRefresh` | apiV2/src/auth/auth.service.ts:109-118 | the machine's rotation left alone gives the records and the answer of the sequential refresh |
| `TokenRuns.ClaimKeepsInv` | apiV2/src/auth/token-records.service.ts:56-70 | claiming moves the family's only holder from the live row to the claiming request |
| `TokenRuns.IssueKeepsInv` | apiV2/src/auth/auth.service.ts:100-118 | issuing moves it on to the successor; a login starts a family nobody held |
| `TokenRuns.EveryRunRotatesOnce` | apiV2/src/auth/auth.service.ts:109-118 | in every interleaving a refresh token has at most one successor, at most one of the requests presenting it is answered with a pair, and a login's chain never holds two live tokens (RFC 6749, section 6) |
| `TokenRuns.DeactivationHolds` | apiV2/src/auth/guards/any-auth.guard.ts:33-86 | from a state in which the account is deactivated, only requests already past their user lookup still issue for it, and no guard check newly admits it over bearer, Basic or session |
| `TokenRuns.DeletionDeactivates` | apiV2/src/jobs/jobs.service.ts:143-149 | the first statement of a deletion that passed its check deactivates its account |
| `TokenRuns.SweepRevokesAll` | apiV2/src/jobs/jobs.service.ts:172-176 | right after the second sweep none of the user's rows is live |
| `TokenRuns.SurvivorsWereInFlight` | apiV2/src/jobs/jobs.service.ts:165-179 | a row of the user live after the second sweep was issued after it, by a request in flight at that sweep and already when the account was deactivated |
| `TokenRuns.RecordOutlivesDeletion` | apiV2/src/jobs/jobs.service.ts:172-176 | such a survivor exists: a slow login outlives both sweeps with a live row |
| `TokenRuns.SurvivorIffInFlight` | apiV2/src/jobs/jobs.service.ts:165-179 | some continuation leaves a live row of the deleted user if and only if a request is in flight for the user right after the second sweep |
| `Oauth.ValidateExact` | apiV2/src/oauth/oauth-code.service.ts:78-111 | the authorize requests accepted are exactly those of the public client, to an http URL of localhost, 127.0.0.1 or [::1], for a code, with method S256, a challenge of 43 letters, digits, hyphens or underscores, and a state; an empty scope is none |
| `Oauth.TakeCodeExact` | apiV2/src/oauth/oauth-code.service.ts:145-171 | supporting fact: a code yields a grant exactly for its client, redirect and verifier within its minute, and is gone from the map whatever happens after the client check |
| `Oauth.OauthCodeService.Decide` | apiV2/src/oauth/oauth-code.service.ts:116-143 | an acceptable, approved, authenticated consent by an active user adds exactly one code, bound to its user, client, scope, redirect and challenge and good for 60000 ms; everything else adds none |
| `Oauth.OauthCodeService.Exchange` | apiV2/src/oauth/oauth-code.service.ts:145-171 | succeeds if and only if the client, the code, its redirect and its verifier fit within its time and its user is active; the code of a request by the client is gone either way; exactly a success stores one refresh token, with the code's grant |
| `Oauth.OauthCodeService.Refresh` | apiV2/src/oauth/oauth-code.service.ts:173-181 | the presented refresh token is spent in every case; a new one is issued exactly for its own client and an active user |
| `Oauth.OauthCodeService.Issue` | apiV2/src/oauth/oauth-code.service.ts:183-204 | an active user gets one new refresh token carrying the grant |
| `OauthAlone.EveryCallAlone` | apiV2/src/oauth/oauth-code.service.ts:116-204 | each request of the machine left alone: a consent puts one code good for 60000 ms in the map, an exchange turns a code into a token for exactly the request that shows what the consent was bound to, a refresh replaces its token; what was shown is spent either way and no other entry changes |
| `OauthRuns.ApplyKeepsInv` | apiV2/src/oauth/oauth-code.service.ts:116-204 | handlers interleaved at their awaits keep tracing, single spending and one holder per consent |
| `OauthRuns.EveryRunSpendsOnce` | apiV2/src/oauth/oauth-code.service.ts:145-181 | in every run a code, and a refresh token, is answered with tokens at most once, and of a consent's code and refresh tokens at most one is live (RFC 6749, 4.1.2 and 6) |
| `OauthRuns.EveryResponseTraces` | apiV2/src/oauth/oauth-code.service.ts:78-171 | every token response traces to a consent of the same user, client and scope with a loopback redirect; an exchange showed the code that consent was answered with, its redirect and the verifier of its challenge (RFC 7636, 4.6), a refresh a token another response for it had carried |
| `OauthRuns.SpentStaysSpent` | apiV2/src/oauth/oauth-code.service.ts:148-150 | a code removed from the map never comes back, so every later exchange of it fails |
| `Lifecycle.OrderLifecycle.StartFulfilmentJob` | apiV2/src/jobs/jobs.service.ts:36-66 | exactly a pending order starts processing with one running job |
| `Lifecycle.OrderLifecycle.ContinueJob` | apiV2/src/jobs/jobs.service.ts:72-105 | a continuation after one of its delays: status, notification and job |
| `Lifecycle.OrderLifecycle.SubmitRequest` | apiV2/src/return-requests/return-requests.service.ts:40-82 | a request is added exactly for the owner's fulfilled order without one |
| `Lifecycle.OrderLifecycle.StartRefundJob` | apiV2/src/jobs/jobs.service.ts:186-199 | one running refund job is added |
| `Lifecycle.OrderLifecycle.DecideRequest` | apiV2/src/return-requests/return-requests.service.ts:107-138 | exactly an undecided request is decided: its status and decidedBy change and nothing else of it; approval of an existing order's request adds exactly one running refund job of that order, whose index is the answer, and rejection adds none |
| `Lifecycle.StatusesStepForward` | apiV2/src/jobs/jobs.service.ts:36-105 | any step leaves an order's status or takes it one step along pending, processing, ready, fulfilled, refunded |
| `Lifecycle.ApplyKeepsInv` | apiV2/src/return-requests/return-requests.service.ts:40-138 | every handler, continuation and dying continuation keeps jobs, requests, statuses and notifications consistent |
| `Lifecycle.EveryRunIsOrderly` | apiV2/src/jobs/jobs.service.ts:36-219 | in every run an order has at most one fulfilment job, return request and refund job, refunded implies an approved request, and its notifications are exactly the chain up to its status |
| `Lifecycle.EveryRunGoesOn` | apiV2/src/jobs/jobs.service.ts:60-219 | in every run an order no longer pending has exactly one fulfilment job and an approved request's order exactly one refund job, and unless that job's continuation died its next delay leaves the order ready, fulfilled or refunded |
| `Lifecycle.FulfilTwice` | apiV2/src/jobs/jobs.service.ts:36-41 | handlers being one step is needed: two fulfilments that both read "pending" start two jobs and take a fulfilled order back to ready |
| `FulfilRace.StartsExactly` | apiV2/src/jobs/jobs.service.ts:36-66 | in every interleaving of handlers' statements, continuations and failures, a handler that answers has started a job if and only if it read the pending order before the first save |
| `FulfilRace.TwoJobsExactly` | apiV2/src/jobs/jobs.service.ts:48-55 | an order whose handlers have answered has two jobs if and only if two of them read it before the first save |
| `FulfilRace.HandlerAlone` | apiV2/src/jobs/jobs.service.ts:36-66 | a handler whose four statements run one after another does what starting fulfilment in one step does: one running fulfilment job and the order processing, or a refusal that changes nothing |
| `Tickets.ActIsAuthorised` | apiV2/src/tickets/tickets.service.ts:56-279 | supporting fact: a handler that succeeds was called by the assignee or an admin (start, resolve), the submitter (close, cancel) or on an unassigned ticket (claim); it changes that ticket's status or assignee only and logs one event |
| `Tickets.TicketsService.CreateTicket` | apiV2/src/tickets/tickets.service.ts:80-96 | a new open, unassigned, unbreached ticket due in 1500 ms, and its event |
| `Tickets.TicketsService.ClaimTicket` | apiV2/src/tickets/tickets.service.ts:188-203 | the first claim of an unassigned ticket wins: the ticket's assignee and nothing else of it changes, and one event is logged; a taken ticket is a conflict |
| `Tickets.TicketsService.AssignTicket` | apiV2/src/tickets/tickets.service.ts:158-180 | an existing agent becomes the assignee, with one event; a missing one is not found and anyone else is unprocessable, and nothing changes |
| `Tickets.TicketsService.StartTicket` | apiV2/src/tickets/tickets.service.ts:205-220 | exactly an admin or the assigned agent of a ticket that is seen and is open moves it on, changing only its status and logging one event; otherwise not found, forbidden or conflict, in that order, and nothing changes |
| `Tickets.TicketsService.ResolveTicket` | apiV2/src/tickets/tickets.service.ts:222-237 | exactly an admin or the assigned agent of a ticket that is seen and is in progress moves it on, changing only its status and logging one event; otherwise not found, forbidden or conflict, in that order, and nothing changes |
| `Tickets.TicketsService.CloseTicket` | apiV2/src/tickets/tickets.service.ts:241-256 | exactly the submitter of a ticket that is seen and is resolved moves it on, changing only its status and logging one event; otherwise not found, forbidden or conflict, in that order, and nothing changes |
| `Tickets.TicketsService.CancelTicket` | apiV2/src/tickets/tickets.service.ts:261-279 | exactly the submitter of a ticket that is seen and is open or in progress moves it on, changing only its status and logging one event; otherwise not found, forbidden or conflict, in that order, and nothing changes |
| `Tickets.TicketSlaSweepService.RunSweep` | apiV2/src/tickets/ticket-sla-sweep.service.ts:81-109 | the tickets of the batch that still exist are marked with the clock reading and get one breach event each, in the batch's order, and nothing else changes |
| `Tickets.TicketSlaSweepService.OnTick` | apiV2/src/tickets/ticket-sla-sweep.service.ts:35-43 | a tick during a sweep does nothing, and the flag is clear when a sweep has ended |
| `Tickets.SweepClearsBatch` | apiV2/src/tickets/ticket-sla-sweep.service.ts:58-79 | a sweep clears exactly its batch: open or in-progress, unbreached tickets past their deadline, at most 500 of them and all there are if fewer |
| `Tickets.BacklogDrains` | apiV2/src/tickets/ticket-sla-sweep.service.ts:54-57 | a fixed backlog of n is gone after k error-free sweeps if and only if 500 k >= n |
| `Tickets.OldestFirst` | apiV2/src/tickets/ticket-sla-sweep.service.ts:54-57 | no ticket of an earlier sweep is due later than one of a later sweep, and none is swept twice |
| `Tickets.DeleteTakesEvents` | apiV2/src/load-admin/load-admin.service.ts:57-62 | a deleted ticket is gone with exactly its own events; every other ticket, every other event and every other ticket's history stay |
| `SlaSweepRuns.ActKeepsHistory` | apiV2/src/tickets/tickets.service.ts:205-279 | supporting fact: each handler's checks let through only the status changes its event allows, and leave the breach flag alone |
| `SlaSweepRuns.ApplyKeepsInv` | apiV2/src/tickets/ticket-sla-sweep.service.ts:35-109 | ticks, sweep steps, handlers, deletions and failures keep one sweep at a time and one breach event per ticket |
| `SlaSweepRuns.EveryRunIsOrderly` | apiV2/src/tickets/ticket-sla-sweep.service.ts:24-43 | in every interleaving at most one sweep is under way, a ticket has at most one breach event and is then marked, and its status events are a path of allowed changes ending at its status |
| `SlaSweepRuns.BreachedWereOverdue` | apiV2/src/tickets/ticket-sla-sweep.service.ts:48-53 | in every interleaving a breach event was logged by a sweep working through the batch of the last query, and that query found the ticket open or in progress, unbreached and past its deadline at the sweep's clock reading |
| `SlaSweepRuns.SweepAlone` | apiV2/src/tickets/ticket-sla-sweep.service.ts:35-109 | a tick whose sweep is left alone marks and logs every ticket of the batch its query returned, and leaves the next tick free to sweep |
| `ReplyForest.HistoryIsOk` | apiV2/src/reviews/review-thread.service.ts:32-60 | after any history of calls each parent is an earlier reply of the same review: no cycles, no link across reviews |
| `ReplyForest.CreateExactly` | apiV2/src/reviews/review-thread.service.ts:32-60 | a reply is added, as sent, exactly when its review is known and its parent, if any, is a reply of the same review; else not found or bad request, in that order |
| `ReplyForest.ListingExact` | apiV2/src/reviews/review-thread.service.ts:72-75 | the query lists exactly the review's replies, each once, by creation time and id |
| `ReplyForest.ForestHoldsEveryReplyOnce` | apiV2/src/reviews/review-thread.service.ts:68-95 | the forest holds exactly the review's replies, each once, at any depth |
| `ReplyForest.ForestIsOrderly` | apiV2/src/reviews/review-thread.service.ts:87-94 | every reply is under its own parent, roots have none, and siblings and roots are in (createdAt, id) order |
| `ReplyForest.MakeNodes` | apiV2/src/reviews/review-thread.service.ts:76-85 | the first loop makes one fresh node per reply |
| `ReplyForest.LinkNodes` | apiV2/src/reviews/review-thread.service.ts:87-94 | the second loop pushes each node onto its parent's children or the roots, in listed order |
| `ReplyForest.FindThread` | apiV2/src/reviews/review-thread.service.ts:68-95 | unknown reviews are refused; otherwise the linked nodes, followed through their children, are the functional forest |
| `CursorWalk.CursorRoundTrip` | apiV2/src/common/cursor.ts:9-20 | decoding a cursor gives its position back exactly when neither half holds a bar |
| `CursorWalk.PageAdvances` | apiV2/src/reviews/reviews.service.ts:71-99 | a page that is not the last has a cursor strictly after the one before and leaves strictly fewer rows |
| `CursorWalk.WalkExact` | apiV2/src/reviews/reviews.service.ts:71-99 | the walk returns every review once, in order, for every page size, exactly when the raw order agrees with the order of millisecond and id |
| `CursorWalk.WalkExactAt` | apiV2/src/reviews/reviews.service.ts:71-99 | at a given page size the walk is exact if and only if after each full page the filter leaves exactly the rows the query has not returned |
| `CursorWalk.SameMillisecond` | apiV2/src/reviews/reviews.service.ts:74-83 | without that, three rows of one millisecond are dropped by pages of one and repeated by pages of two |
| `CursorWalk.WalkOverChanges` | apiV2/src/reviews/reviews.service.ts:71-99 | however rows come and go between pages, no row is returned twice, rows come in order, and a row present for every page is returned |
| `CursorWalk.WalkPages` | tests/helpers/walk-review-cursor.ts:18-30 | the loop of the walk ends and has collected what `Walk` says |
| `CursorWalk.AssertReviewCursorWalk` | tests/helpers/walk-review-cursor.ts:13-38 | passes exactly when the walk has the expected number of rows and no id twice, hence on an agreeing table exactly for the table's size |

## Left out

Assumptions of the model:

- An ORM `save` writes what its method assigned and nothing else, and paging stays scoped to its product: whether `andWhere` parenthesises a string with OR is not modelled.
- These statements bypass the protocols and do not run in any modelled run: changing an order line's quantity, setting a product's stock or price directly, the load reset that deletes orders, deleting warehouses, and writing a status through the vulnerability fixture.
- Handlers of orders' lifecycle and tickets that load, check and save without a lock are one step each; `FulfilRace` takes starting fulfilment apart and says what that assumption is worth.
- Deflate, SHA-256, HMAC, base64url and URL parsing are functions about which only an inverse is assumed where one is needed; JWT verification is "a token this service signed, of that kind, not run out"; bcrypt is a yes or no given by the caller; random secrets and primary keys never repeat.
- Clock readings are inputs: one per order request, and a clock that other events move forward in the token, OAuth and ticket machines. The database's clock and the process's are one clock there.
- Money is whole cents and a percent coupon's value whole hundredths of a percent, its discount rounded half up; JavaScript floating point and `toFixed` are not modelled, and no claim is made that totals of fixed coupons stay non-negative.
- The rows of an order and its items are one insert, and the membership read inside the coupon check is part of that check's step.

Not modelled:

- Controllers, DTO validation, migrations, seeds, Swagger, webhook delivery, the HTTP call to the inventory service and the notifications about backorders it leads to: plumbing around the protocols.
- Registration's own race on the e-mail address: the same unique-violation pattern as restocking, with nothing to conserve.
- The sliding-window rate limiter and its Retry-After arithmetic, the Stripe-shaped verifier, CSV quoting, batch creation and the category tree (the reply forest again): easier than what is here.
- Concurrent `addItem` calls: the update-or-insert race is the one proved for restocking.
- The SigV4 verifier outside the canonical request: header parsing, key scope, the time window and the key derivation are checks in sequence over functions nothing is known about.
- Org-scoped listing of tickets, comments and job visibility: read-only filters.
- The web front end, load scripts and the demo, edge and vulnerability modules.
- Leap seconds, time zones and the text form of timestamps: the paging model takes milliseconds for the ISO text in the cursor, and `CursorRoundTrip` is about the texts.

Members stated narrower than their code:

- TokenRuns.EveryRunRotatesOnce: session logout is modelled as separate logouts of its two cookies, because each half stands on its own.
- TokenRuns.DeactivationHolds: an access token's own expiry is not modelled, so the guard may be asked to admit one at any later time, which only makes the theorem stronger.
- Tickets.BacklogDrains: every sweep of the backlog reads with the same clock reading, because a later reading may add tickets to a backlog that is meant to be fixed.
- ReplyForest.HistoryIsOk: replies are never deleted in a history, because the repository has no operation that deletes one.
- OrderSafety.EveryRunConserves: foreign-key locks and serialisation failures are spontaneous aborts, because PostgreSQL may refuse a transaction for reasons outside this code.
- Orders.DiscountIsNearest: rounds a half cent up exactly, because floating point and `toFixed` are not modelled.
- Orders.OrdersService.Create: has nothing running beside it, so the second lookup after a unique violation is in the machine only (`LookupAgain`); the reservation call after the commit is not in either.
- Cart.RetryReplays: compares two checkouts one after the other; `LaterCheckoutReplays` and `RefusedExactly` are the statements about every run.
- Cart.CartService.AddItem: starts from the user's lines, so creating the cart row and the insert race on it are not in it.
- Idempotency.EveryRunAnswers: after a commit the source may still fail, in the notification about a backorder or in clearing the cart, and then answers an error although the order stands; the machine's requests go on to their answer. The reservation call itself never throws.
- Warehouse.InventoryService.Restock: has nothing running beside it, so the unique violation is in the machine only (`UpdateAgain`).
- WarehouseRuns.UndisturbedIsAlone: no other event at all runs beside the item; `UndisturbedGetsStock` lets everything run that does not lower the product's rows.
- Tokens.AuthService.StartDeletion: the job row and what its continuation wipes besides tokens are left out; the continuation's second sweep is in the machine.
- Lifecycle.OrderLifecycle.ContinueJob: the status, the notification and the job's completion after one delay are one step, and the outbound webhook is left out.
- Tickets.TicketSlaSweepService.RunSweep: is given the batch the query returned (`IsBatch` says which ones it may return), and its updates do not fail; failing ones are in the machine.
- Deadlock.DeadlockExactly: no request reads through a second connection, which jams by itself (`PoolJams`).
