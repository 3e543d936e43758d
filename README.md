# simple-raffle, modelled in Dafny

simple-raffle is a raffle manager. Sellers log in by name. A seller creates a
raffle (an amount of numbers and a price) together with a team of sellers, each
with a role: owner, moderator or seller. Owners and moderators manage the team
and move the raffle between the states waiting, started and complete. Any
member registers sold numbers (one buyer per number per raffle), searches them
page by page, and posts to the raffle's chat.

This project models the backend mutations and queries of `convex/` and the
list logic of the client page `app/page.tsx`:

- `schema.dfy`: the five tables, the id counter and the index lookups. The
  `Schema.Db` class holds the tables as sequence fields. Its methods are the
  database writes (`insert`, `patch`, `delete`), and each write keeps the
  store invariant `Db.Valid()`.
- `auth.dfy`: the seller directory. `raffles.dfy`: raffles and memberships.
  `numbers.dfy`: sales, including the filter, the in-place sort and the
  pagination of `searchNumbers`. `chat.dfy`: the chat.
- `page.dfy`: the creation form's seller list, `handleCreateRaffle`, the
  number-input filter and the page controls.
- `seqs.dfy` and `text.dfy`: the generic sequence helpers, and the JavaScript
  string primitives `trim`, `toLowerCase` and `includes`.

Each operation returns a `Result`. Its error constructor names the exception
the source throws. Because Convex rolls a failed mutation back, every error
case is proved to leave the store unchanged.

## Model

| member | source | states |
|---|---|---|
| Schema.FindMembership | convex/raffles.ts:118-123 | The `by_seller_and_raffle` lookup with `.first()` gives the position of the pair's oldest row. It is absent exactly when no row holds the pair. |
| Schema.RoleIn | convex/raffles.ts:226-233 | Returns the role of a row holding the pair. It is none exactly when the seller has no membership in the raffle. |
| Schema.SellerById | convex/chat.ts:66 | `ctx.db.get` on sellers returns the row with that id, or none when no row has it. |
| Schema.RaffleIndex | convex/raffles.ts:213-215 | Gives the position of the raffle with that id. It is none exactly when the raffle does not exist. |
| Schema.ValidAfterNewSeller | convex/auth.ts:21-35 | Appending a seller whose name is new keeps the invariant, including unique names. |
| Schema.ValidAfterNewRaffle | convex/raffles.ts:14-20 | Appending a raffle with the next id keeps the invariant. |
| Schema.ValidAfterNewMembership | convex/raffles.ts:24-29 | Appending a membership of an existing raffle keeps the invariant. |
| Schema.ValidAfterNewNumber | convex/numbers.ts:15-45 | Appending a number not yet taken in an existing raffle keeps the invariant, including one row per (raffle, number). |
| Schema.ValidAfterNewMessage | convex/chat.ts:28-33 | Appending a message of an existing raffle keeps the invariant. |
| Schema.ValidAfterRolePatch | convex/raffles.ts:139-141 | Patching a membership's role keeps the invariant. |
| Schema.ValidAfterMembershipDelete | convex/raffles.ts:187-189 | Deleting a membership keeps the invariant. |
| Schema.ValidAfterStatePatch | convex/raffles.ts:213-215 | Patching a raffle's state keeps the invariant. |
| Schema.Db.constructor | convex/schema.ts:5-40 | The deployment starts with five empty tables, and the invariant holds. |
| Schema.Db.InsertSeller | convex/auth.ts:30-33 | Inserts a seller under the next id. Only the sellers table and the counter change. |
| Schema.Db.InsertRaffle | convex/raffles.ts:14-20 | Inserts a raffle under the next id. Only the raffles table and the counter change. |
| Schema.Db.InsertMembership | convex/raffles.ts:145-150 | Inserts a membership under the next id. Only the membership table and the counter change. |
| Schema.Db.InsertNumber | convex/numbers.ts:38-45 | Inserts a sale under the next id. Only the numbers table and the counter change. |
| Schema.Db.InsertMessage | convex/chat.ts:28-33 | Inserts a message under the next id. Only the chat table and the counter change. |
| Schema.Db.PatchRole | convex/raffles.ts:139-141 | Sets the role of one membership row. Nothing else changes. |
| Schema.Db.DeleteMembership | convex/raffles.ts:187-189 | Removes one membership row and keeps the order of the others. Nothing else changes. |
| Schema.Db.PatchState | convex/raffles.ts:213-215 | Sets the state of one raffle row. Nothing else changes. |
| Auth.FindSellerByName | convex/auth.ts:5-15 | Returns a seller with exactly that name. It is none exactly when no seller has the name. |
| Auth.CreateSeller | convex/auth.ts:18-37 | An existing name returns its seller's id and changes nothing. A new name inserts exactly one seller. Afterwards the lookup by name finds the returned id, and names stay unique. |
| Auth.GetSeller | convex/auth.ts:40-45 | Returns the seller with that id, or none exactly when no seller has it. |
| Auth.NameIdentifiesSeller | convex/auth.ts:21-28 | Under the invariant, looking a seller's name up returns that very seller. |
| Raffles.CreatedMembershipsUniqueIff | convex/raffles.ts:23-30 | The new raffle's rows keep one row per (seller, raffle) pair if and only if the seller ids passed in are distinct. |
| Raffles.CreatedRoles | convex/raffles.ts:23-30 | With distinct seller ids, seller i holds role i in the new raffle, and no other seller belongs to it. |
| Raffles.FreshRaffleUnreferenced | convex/raffles.ts:14-20 | A freshly issued raffle id has no memberships yet. |
| Raffles.InsertInitialMemberships | convex/raffles.ts:23-30 | The loop appends one row per seller, in order, with consecutive ids, role i and the raffle's id. No other table changes. |
| Raffles.InsertRaffleWithMembers | convex/raffles.ts:14-32 | Inserts the raffle in state waiting, then its memberships, and returns the raffle's id. Unique memberships survive if and only if the ids are distinct. With distinct ids each seller gets its role. |
| Raffles.CreateRaffle | convex/raffles.ts:5-34 | With fewer roles than sellers the call fails and nothing changes. Otherwise it returns the new raffle's id, with the writes and guarantees of InsertRaffleWithMembers. |
| Raffles.GetRaffle | convex/raffles.ts:44-49 | Returns the raffle with that id, or none exactly when it does not exist. |
| Raffles.MembershipsOfSeller | convex/raffles.ts:55-58 | The seller's index range holds exactly the seller's membership rows. |
| Raffles.MembershipsOfRaffle | convex/raffles.ts:75-78 | The raffle's index range holds exactly the raffle's membership rows. |
| Raffles.GetRafflesBySeller | convex/raffles.ts:52-69 | Gives one entry per membership of the seller, in index order. Each entry carries the membership's role and that raffle, which is absent exactly when the raffle does not exist. |
| Raffles.RafflesOfSellerComplete | convex/raffles.ts:60-67 | Under the invariant, no entry's raffle is missing, so the null filter removes nothing. |
| Raffles.SellerViewsMembers | convex/raffles.ts:80-87 | Every entry is an existing seller together with the role of one of its memberships. Every membership whose seller exists yields an entry. |
| Raffles.SellerViewsConcat | convex/raffles.ts:80-87 | The entries are built membership by membership, in index order: two runs of memberships give their entries one after the other. |
| Raffles.SellerViewsSingle | convex/raffles.ts:80-87 | One membership gives exactly one entry, its seller with its role, when the seller exists, and none otherwise. So duplicate memberships give repeated entries. |
| Raffles.GetSellersByRaffle | convex/raffles.ts:72-89 | Every entry is a member of the raffle with its role. Every member whose seller document exists is listed. |
| Raffles.SearchSellers | convex/raffles.ts:92-106 | A blank term gives nothing. Otherwise the result is exactly the sellers whose lower-cased name contains the lower-cased term. |
| Raffles.GetSellerRole | convex/raffles.ts:220-235 | Returns none exactly when the pair has no membership. Under unique memberships, it returns the role of that pair's row. |
| Raffles.PatchedMembershipFound | convex/raffles.ts:137-142 | After a role patch the same row is still the pair's first, and uniqueness is kept. |
| Raffles.AppendedMembershipFound | convex/raffles.ts:145-150 | A row appended for a pair with no row becomes the pair's first row, and uniqueness is kept. |
| Raffles.DeletedMembershipGone | convex/raffles.ts:180-189 | Under unique memberships, deleting the pair's row leaves the pair with no membership, and uniqueness is kept. |
| Raffles.AssignSellerToRaffle | convex/raffles.ts:109-152 | A requester without an owner or moderator membership is refused, and nothing changes. An existing membership is patched and its id returned. A missing one is inserted under the next id. On success the seller holds the requested role, and unique memberships are preserved. |
| Raffles.RemoveSellerFromRaffle | convex/raffles.ts:155-191 | Non-managers are refused. An owner removing themself is refused. Both refusals leave the store unchanged. Otherwise the pair's first row is deleted, or nothing happens when there is none. Under unique memberships the seller then has no role in the raffle. |
| Raffles.UpdateRaffleState | convex/raffles.ts:194-217 | Non-managers are refused, and nothing changes. A manager always succeeds, because the raffle exists by the invariant. Only that raffle's state changes, and afterwards the raffle has the new state. |
| Numbers.FindNumber | convex/numbers.ts:15-20 | The `by_raffle_and_number` lookup returns a row holding the number in the raffle. It is none exactly when the number is not taken. |
| Numbers.RegisterNumber | convex/numbers.ts:5-47 | A taken number is refused first. A seller without a membership is refused next. Both refusals leave the store unchanged. Otherwise exactly the sale is appended under the next id. Afterwards the number is taken if and only if the sale succeeded or the number was taken before. |
| Numbers.NumberHasOneBuyer | convex/numbers.ts:15-24 | Under the invariant, looking up a sold number in its raffle returns that very sale. |
| Numbers.GetNumber | convex/numbers.ts:101-106 | Returns the sale with that id, or none exactly when no sale has it. |
| Numbers.NumbersOfRaffle | convex/numbers.ts:62-66 | The raffle's index range holds exactly the raffle's sales. |
| Numbers.GetNumbersByRaffle | convex/numbers.ts:109-117 | Returns exactly the raffle's sales. |
| Numbers.NumbersByRaffleCounts | convex/numbers.ts:109-117 | Each of the raffle's sales comes back exactly as many times as it is stored, and no other sale comes back. |
| Numbers.MatchingNumbers | convex/numbers.ts:68-78 | A missing or blank term keeps every sale. Otherwise exactly the sales whose number, buyer name or contact contains the lower-cased term are kept. No sale is duplicated. |
| Numbers.InsertPermutes | convex/numbers.ts:81 | One insertion step adds its element and loses none. |
| Numbers.InsertKeepsOrder | convex/numbers.ts:81 | Inserting into a newest-first sequence keeps it newest first. |
| Numbers.SortByNewestOrdered | convex/numbers.ts:81 | The comparator `b.createdAt - a.createdAt` sorts newest first. |
| Numbers.SortByNewestPermutes | convex/numbers.ts:81 | Sorting is a permutation: the same sales, each as often. |
| Numbers.InsertKeepsTies | convex/numbers.ts:81 | An insertion step keeps the relative order of sales with equal `createdAt`. |
| Numbers.SortByNewestStable | convex/numbers.ts:81 | The sort is stable: sales created at the same time keep their input order. |
| Numbers.InsertAt | convex/numbers.ts:81 | Inserting lands the element right after the last entry at least as new as it. |
| Numbers.InsertIntoPrefix | convex/numbers.ts:81 | In place, the pass over `a[..i+1]` leaves the functional insertion of `a[i]` into `a[..i]`, and the rest of the array untouched. |
| Numbers.SortNewestFirst | convex/numbers.ts:81 | The in-place sort leaves exactly the functional sort of the array's old contents. |
| Numbers.PageSize | convex/numbers.ts:84 | A missing or zero `numItems` means 20; any other value is used as given. |
| Numbers.Paginate | convex/numbers.ts:84-96 | The page is `slice(cursor, cursor+numItems)`. It is done exactly when the cursor plus the page size reaches the end. The next cursor is present exactly when it is not done, and then equals cursor plus page size. |
| Numbers.SearchNumbers | convex/numbers.ts:50-98 | Returns the page of the raffle's matching sales sorted newest first: collect, filter, sort in place, then paginate. |
| Numbers.PageWithin | convex/numbers.ts:89 | Every element of a page comes from the sequence it was cut from. |
| Numbers.PageOrdered | convex/numbers.ts:89 | A page of a newest-first sequence is newest first. |
| Numbers.SortedMembers | convex/numbers.ts:81 | Sorting keeps exactly the elements it was given. |
| Numbers.SearchResultsSound | convex/numbers.ts:50-98 | Every result is a sale of the raffle, it matches the term when one filters, and the page is newest first. |
| Numbers.FirstPageIsNewestTwenty | convex/numbers.ts:62-96 | With an empty term, 20 items and cursor 0, the page is the first `min(20, n)` of the raffle's sales sorted newest first. Each is at least as new as every sale left out. The page is the last one exactly when the raffle has at most 20 sales. |
| Numbers.FollowCursorFrom | convex/numbers.ts:89-95 | Following `nextCursor` from cursor c until done yields everything from c onwards. |
| Numbers.PagesCoverResults | convex/numbers.ts:89-95 | Walking the pages from the start yields every result exactly once, in order. |
| Chat.SendMessage | convex/chat.ts:5-35 | A non-member is refused, then a message that is blank once trimmed is refused. Both leave the store unchanged. Otherwise the trimmed message is appended under the next id. If every stored message was trimmed and non-empty, that stays true. |
| Chat.SenderName | convex/chat.ts:66-69 | The name is never empty. An existing seller with a non-empty name gives that name. A missing seller, or one whose name is empty, gives "Desconocido". |
| Chat.MessagesOfRaffle | convex/chat.ts:57-61 | The raffle's index range holds exactly the raffle's messages. |
| Chat.GetMessages | convex/chat.ts:38-76 | A non-member gets an empty list, not an error. A member gets one entry per message of the raffle in creation order, each with its sender's name. |
| Chat.PostedMessageAppears | convex/chat.ts:28-33 | A message posted to a raffle becomes the last message of that raffle's chat. |
| Chat.PostLeavesOtherChats | convex/chat.ts:28-33 | A post to one raffle leaves every other raffle's chat as it was. |
| Text.Trim | convex/chat.ts:24-31 | Strips exactly the leading and trailing whitespace. The result is empty exactly when the input is all whitespace. Otherwise it starts and ends with a non-space. |
| Text.TrimIdempotent | convex/chat.ts:31 | Trimming an already trimmed text changes nothing. |
| Page.Ids | app/page.tsx:182 | `sellersToAdd.map(s => s.id)`: the same length, with entry i's id at position i. |
| Page.DistinctIdsMeansDistinct | app/page.tsx:182 | A list has no repeated id if and only if its id sequence is distinct. |
| Page.AddSeller | app/page.tsx:204-212 | A seller already listed leaves the list unchanged. Otherwise it is appended with role seller. Distinct ids stay distinct. |
| Page.RemoveSeller | app/page.tsx:215-217 | No entry with the id remains. Exactly the other entries are kept. Distinct ids stay distinct. |
| Page.RemoveSellerConcat | app/page.tsx:216 | Removal works entry by entry: a list split in two gives the two halves with the id removed, one after the other, so the kept entries keep their order. |
| Page.RemoveSellerSingle | app/page.tsx:216 | A single entry is dropped exactly when it carries the id. |
| Page.FilterKeepsDistinctIds | app/page.tsx:216 | Filtering a list with distinct ids keeps them distinct. |
| Page.ChangeSellerRole | app/page.tsx:220-224 | Length and ids are unchanged. The entries with the id take the role, and every other entry is unchanged. |
| Page.EditsKeepIdsDistinct | app/page.tsx:204-224 | No sequence of adds, removes and role changes repeats an id. |
| Page.CreatorAsOwner | app/page.tsx:164-174 | An absent creator is put first as owner. A present creator is promoted to owner in place, and nothing else changes. Either way the list is non-empty, every creator entry is an owner, and distinct ids stay distinct. |
| Page.EnsureCreatorIsOwner | app/page.tsx:164-174 | The copy, then the `unshift` or the in-place `forEach` over the list, computes exactly `CreatorAsOwner`. |
| Page.HandleCreateRaffle | app/page.tsx:153-190 | It returns nothing when a field is blank or there is no session, and an alert when the amount or price is NaN or not positive. Otherwise it submits, and the empty-list alert cannot happen. The submitted arguments carry the parsed amount and price and the creator. The ids and roles are those of `CreatorAsOwner` applied to the selected list, entry by entry. So they are equally long and non-empty, and the creator is an owner. Distinct selected ids give distinct submitted ids. |
| Page.AllDigits | app/page.tsx:253 | `/^\d+$/` holds exactly for a non-empty string of decimal digits. |
| Page.NumberChange | app/page.tsx:251-256 | The field takes the typed value exactly when it is empty or all digits; otherwise it keeps its old value. |
| Page.PreviousPage | app/page.tsx:773 | `Math.max(0, page - 1)` is never negative. It is page - 1 from a positive page, and 0 otherwise. |
| Page.PageNeverNegative | app/page.tsx:773-784 | Starting from a non-negative page, no sequence of Previous, Next and reset actions reaches a negative page. |
| Page.RequestOpts | app/page.tsx:65-68 | The request asks for 20 items starting at `page * 20`. |
| Page.NextPageFollowsCursor | app/page.tsx:783-784 | When Next is enabled, the server's `nextCursor` is exactly the client's next cursor `(page+1) * 20`, and the next page is not empty. |

## Left out

- Raffles.CreateRaffle: a call with fewer roles than seller ids is modelled as failing with `MissingRole` and changing nothing. The source would insert `role: undefined`, which the schema validation rejects, and Convex rolls back the whole mutation. Extra roles are ignored, as in the source.
- Raffles.CreateRaffle: does not deduplicate seller ids, as in the source. So (seller, raffle) uniqueness is not part of `Db.Valid()`. It is proved to hold after the call if and only if the ids are distinct.
- Numbers.RegisterNumber: the duplicate check comes before the access check, following the code order.
- Numbers.MatchingNumbers: the filter uses the lower-cased but untrimmed term, as the source does. Only the blank test trims.
- Chat.SenderName: a seller whose name is the empty string also reads as "Desconocido", because `||` treats "" as false.
- Text.LowerChar: `toLowerCase` is modelled on ASCII letters only. Unicode case mapping is not modelled.
- Raffles.UpdateRaffleState: the `RaffleNotFound` error for patching a missing raffle is modelled, and it is proved unreachable once the permission gate passes.
- Numbers.SortNewestFirst: ECMAScript leaves the algorithm of `Array.prototype.sort` to the engine. It is modelled as a stable insertion sort, which matches the result of every stable sort with this comparator.
- Numbers.Paginate: the cursor string is taken already parsed to a natural number. `parseInt` of a malformed or negative cursor, and a negative or fractional `numItems`, are not modelled.
- `parseInt` and `parseFloat` in `handleCreateRaffle` are not modelled; their results are parameters, with `None` standing for NaN.
- `amountOfNumbers` is an integer. The schema and the `createRaffle` validator accept any JavaScript number, fractional ones included; the page only ever sends a `parseInt` result. Non-integral amounts are not modelled.
- Prices are real numbers. IEEE double rounding, and the revenue computed from them on the client, are not modelled.
- `Date.now()` is a parameter: each mutation passes one time value.
- Document ids are natural numbers from a single counter shared by all tables. Convex's per-table opaque ids are not modelled.
- `getAllRaffles`, with its `.order("desc")`, is not modelled because it is not a core operation.
- app/components/RaffleContent.tsx and app/raffle/[id]/page.tsx are not part of this model.
- The React rendering, local storage, the search debounce timer and all alerts other than the outcome of `handleCreateRaffle` are not modelled.
- Page.EnsureCreatorIsOwner: it returns a fresh list. The source's `forEach` mutates objects it shares with the React state `selectedSellers`, and that aliasing is not modelled.
- Concurrency is not modelled; each mutation runs as one atomic step, as Convex transactions do. The read-then-insert races between transactions are out of scope for the same reason.
