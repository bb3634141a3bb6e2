# RoomBot room-status core in Dafny

RoomBot is a Discord bot. It scrapes a room-occupancy page every hour by default and
answers questions about which rooms are free, occupied or reserved. This
project models the logic in `bot.js` that turns one fetched page into room
records and keeps the bot's snapshot (`roomsData` and `lastUpdate`). It also
models the queries the chat commands run against that snapshot. The proofs
cover this logic; the network, the HTML parser and Discord are left out.

Modules, one per concern, all in the top directory:

- `Wrappers` (`wrappers.dfy`): `Option` (JavaScript `null`/`undefined`) and `Result` (an operation that can throw).
- `Text` (`text.dfy`): `String.prototype.includes` as `Contains`, with a reference substring definition `Occurs` and a proof that the two agree. It also has ASCII `toLowerCase` as `Lower`.
- `Seqs` (`seqs.dfy`): `Array.prototype.filter` as an order-preserving `Filter`.
- `Rooms` (`rooms.dfy`): the status enum and its numeric codes 0–3 from the bot's `ROOM_STATUS` table, the catalog entry (`townData.rooms[i]`) and the room record.
- `StatusRule` (`status_rule.dfy`): the status scan over the `use` class attributes of a room's matched graphic elements.
- `Slots` (`slots.dfy`): the time-slot and activity rule over the paragraph texts of a room's matched summary cards.
- `Scrape` (`scrape.dfy`): building records, the `scrapeRoomsData` pipeline and its error paths, and the all-or-nothing update of the snapshot.
- `Query` (`query.dfy`): `getRoomsByStatus`, `getRoomsByFloor`, `findRoom` and the floor heading.
- `Scenarios` (`scenarios.dfy`): worked fixture examples.

How the foreign calls become inputs:

- The cheerio selector results are a function `matches` from a display name to a `RoomMatches`. `useClasses` holds one optional class string per `g` element whose id contains the name; the string is the first `use` descendant's `class`, and is absent when there is none. `cards` holds the `<p>` texts of each `.MuiCard-root` card whose text contains the name. Both are in document order.
- The axios fetch is an `Option<Page>`. An absent page is a transport failure.
- `JSON.parse` followed by the `props.pageProps.townData.rooms` lookup is a parameter `parse`. It returns invalid JSON, a missing room list, or the list of entries.
- The error kinds (transport, missing data, schema) only label the failure paths. The source raises a different error on each path (its own error for missing data at bot.js:60, the HTTP client's rejection, a JSON syntax error, a failed property lookup); the single handler at bot.js:118-121 treats them all alike: it logs the message and returns `null`.
- `new Date()` is a parameter `clock`. Record `i` gets reading `i`, and `lastUpdate` gets the reading after the last record.

How the activity is chosen:

- The activity is the last paragraph across all matched cards (bot.js:90-91), not the first card's last paragraph. `Slots.ActivityComesFromLastCard` states this.
- The activity may be the empty string. This happens when the last paragraph is empty and differs from the time text (`Scenarios.EmptyLastParagraphGivesEmptyActivity`).
- The activity is only ever set together with a time slot (bot.js:93-96).

## Model

| member | source | states |
|---|---|---|
| Text.ContainsIffOccurs | bot.js:78-80 | the scanning `includes` holds exactly when the pattern occurs as a contiguous slice at some index |
| Text.ContainsEmpty | bot.js:138-139 | every string includes the empty string, so an empty search term matches every room |
| Text.Lower | bot.js:136-139 | lower-casing keeps the length, turns each ASCII capital into its own lower-case letter and keeps every other character |
| Text.LowerIdempotent | bot.js:136-139 | lower-casing an already lower-cased search term changes nothing |
| Seqs.Filter | bot.js:126 | the result holds exactly the kept elements, as an order-preserving subsequence of the input |
| Seqs.FilterMultiplicities | bot.js:126 | each kept element appears in the result exactly as often as in the input, every other element never |
| Rooms.Code | bot.js:28-33 | Unknown, Occupied, Free and Reserved have codes 0, 1, 2 and 3, and no status has any other code |
| Rooms.FromCode | bot.js:28-33 | a code names a status exactly when it is in 0..3, and decoding inverts `Code` |
| StatusRule.Marker | bot.js:77-81 | an absent class signals nothing; otherwise `occupied` gives Occupied, else `reserved` gives Reserved, else `free` gives Free, else nothing |
| StatusRule.ScanIsLastMarker | bot.js:73-82 | the document-order scan ends in the marker of the last element that carries one, or in its starting status |
| StatusRule.Classify | bot.js:69-82 | a room's status is never Unknown and equals the last recognised marker, Free when there is none |
| StatusRule.NoMarkerMeansFree | bot.js:69-82 | with no matched element, or none carrying a recognised marker, the status is Free |
| StatusRule.LastMarkedElementDecides | bot.js:73-82 | the last element with a recognised marker decides the status |
| StatusRule.UnmarkedSuffixKeepsStatus | bot.js:77-81 | later elements with absent or unrecognised classes never reset the status |
| Slots.FirstTextIsFirstParagraph | bot.js:90 | `first().text()` over the combined selection is the first paragraph of the first card that has one, or `""` |
| Slots.LastTextIsLastParagraph | bot.js:91 | `last().text()` over the combined selection is the last paragraph of the last card that has one, or `""` |
| Slots.ExtractSlot | bot.js:85-97 | time slot set iff the first paragraph contains `h`, and then equal to it; activity set iff the time slot is set and the last paragraph differs from the first, and then equal to the last paragraph |
| Slots.SingleParagraphHasNoActivity | bot.js:95 | when the cards hold a single paragraph there is never an activity |
| Slots.ActivityComesFromLastCard | bot.js:88-96 | with two matched cards the time comes from the first card and the activity from the last card |
| Scrape.BuildRecord | bot.js:99-109 | a record carries its entry's id, names, floor and seats unchanged, a signalled status from the scan and the slot rule's time and activity |
| Scrape.ProcessRooms | bot.js:67-110 | one record per catalog entry, in catalog order, each projecting its entry, with a signalled status and the i-th clock reading |
| Scrape.ProcessedIdsUnique | bot.js:67-100 | distinct catalog identifiers give pairwise distinct record ids |
| Scrape.SameDisplayNameSameStatus | bot.js:72-91 | entries sharing a display name always get the same status, time slot and activity |
| Scrape.Scrape | bot.js:49-67 | a failed fetch, a missing or empty data element, invalid JSON or a missing room list each fail, with a stated error kind; otherwise the result is exactly the processed record list, projecting every catalog entry in order |
| Scrape.Refresh | bot.js:112-121 | on success the scraped records are stored and returned and the last-update time is replaced with them; on any failure the snapshot is unchanged and nothing is returned |
| Scrape.RefreshPreservesConsistency | bot.js:23-25 | the start-up state, and every state a refresh leaves, has only signalled statuses and no records before the first success |
| Scrape.RecordsNotNewerThanRefresh | bot.js:108-113 | with a non-decreasing clock no record is stamped later than the snapshot's last-update time |
| Query.RoomsByStatus | bot.js:125-127 | exactly the records whose status code equals the argument, in record order, each as often as in the input |
| Query.RoomsByFloor | bot.js:130-132 | exactly the records whose floor equals the argument, in record order, each as often as in the input |
| Query.StatusCodesSelectStatuses | bot.js:206-243 | the codes 2, 1 and 3 passed by the commands select exactly the Free, Occupied and Reserved rooms |
| Query.StatusQueriesPartition | bot.js:340-343 | the status queries for codes 0..3 together count every record once |
| Query.SummaryCountsAddUp | bot.js:340-343 | when no record is Unknown the free, occupied and reserved counts sum to the total |
| Query.FirstMatch | bot.js:137-140 | the index found is the first record whose lower-cased display name or name contains the term; absent iff no record does |
| Query.FindRoom | bot.js:135-141 | the first record in order matching the lower-cased query on display name or name; absent iff none matches |
| Query.FindRoomIgnoresQueryCase | bot.js:136 | queries that differ only in ASCII case find the same record |
| Text.LowerSlice | bot.js:136-139 | lower-casing a slice gives the same slice of the lower-cased string |
| Query.FindRoomFindsDisplayName | bot.js:136-139 | any slice of a record's display name, in any case, finds some record |
| Query.EmptyQueryFindsFirst | bot.js:136-140 | the empty query finds the first record |
| Query.FloorLabel | bot.js:313-315 | `RDC` exactly for floor 0, `1er étage` for 1, `2ème étage` for 2; every floor outside 0..2 falls through to the third-floor label |
| Query.FloorLabelsDistinct | bot.js:227-229 | floors 0..3 get four different labels |
| Scenarios.OccupiedBeatsFree | bot.js:78-80 | the class `free occupied` gives Occupied |
| Scenarios.ReservedBeatsFree | bot.js:79-80 | the class `room free reserved` gives Reserved |
| Scenarios.UnrecognisedClassKeepsStatus | bot.js:73-82 | the classes `occupied` then `foo` give Occupied |
| Scenarios.LaterMarkerWins | bot.js:73-82 | the classes `occupied`, absent, `free` give Free |
| Scenarios.BusyRoomRecord | bot.js:67-109 | room `r1`/`A1` marked occupied, with the card `9h-10h`, `Math Class`, becomes an Occupied record with that slot and activity |
| Scenarios.UnmatchedRoomRecord | bot.js:69-97 | the same room with no matched markup is Free with no slot and no activity |
| Scenarios.EmptyLastParagraphGivesEmptyActivity | bot.js:93-96 | the card `9h` then an empty paragraph yields the activity `""` |
| Scenarios.FailedFetchKeepsSnapshot | bot.js:118-121 | a transport failure returns nothing and keeps the snapshot |
| Scenarios.MissingDataKeepsSnapshot | bot.js:58-61 | a page without the data element returns nothing and keeps the snapshot |
| Scenarios.BusyPageRefresh | bot.js:112-116 | refreshing the busy page returns the single `A1` record and stamps the snapshot with the next clock reading |
| Scenarios.LowerCaseQueryFindsRoom | bot.js:135-141 | the query `a101` finds the record displayed as `A101` |

## Left out

- The HTTP fetch with its User-Agent header (bot.js:49-53) is network I/O. Its outcome is an input.
- Loading the page and evaluating selectors (bot.js:55-58, 72, 74-75, 88) belong to the foreign HTML library. This covers `g[id*=…]`, `:contains`, `find('use')` and `find('p')`, as well as quotes inside a display name, which make a selector throw. Their results are inputs.
- `JSON.parse` and the `props.pageProps.townData.rooms` lookup (bot.js:63-64) are the `parse` input. Catalog values are assumed to be strings and integers. A non-integer `floor` or `seats`, a non-string name, or a non-array `rooms` are not modelled.
- `new Date()` readings are the abstract `clock`. Its values are not assumed to increase, except in `Scrape.RecordsNotNewerThanRefresh`.
- The following are presentation or process plumbing with no room logic: the Discord client, slash-command definitions, embeds, replies and deferrals, command deployment and bot start-up (bot.js:36-42, 144-411). The cron schedule and environment loading (bot.js:5-21, 190-193) are left out for the same reason.
- The same goes for the status table's names, colours and emojis (bot.js:28-33). Only the numeric codes are modelled.
- The occupancy rate `Math.round((occupee / total) * 100)` (bot.js:353) is floating point, and is NaN for an empty snapshot.
- The per-room floor text at bot.js:287 needs integer-to-string formatting. The two floor-heading ternaries are modelled as `Query.FloorLabel`. At bot.js:227 the floor is the string key of a grouping object. For integer floors this gives the same labels as bot.js:313.
- Two refreshes running concurrently are not modelled. Each refresh here is one atomic step.
- Text.Lower: lower-cases only the ASCII letters `A`–`Z`. JavaScript's `toLowerCase` also folds other Unicode letters, so the model's case-insensitive search is weaker than the source's for non-ASCII names.
