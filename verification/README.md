# Polyester Rust SDK: verified model

This project models the parts of the SDK where a slip costs money or data, and
proves what they promise for all inputs, all runs and all interleavings. It
checks with `dafny verify dfyconfig.toml`.

- **Local order book** (`LocalBook`, `Sums`, `Buckets`, `BookView`): sequence-numbered
  deltas merged in place, checked price buckets, and the rendered view. The main
  result is a refinement: whatever arrives, the local book is the server's book
  at the sequence it reports.
- **Realtime wire format** (`Utf8`, `Wire`, `WireProofs`, `WireLaws`, `WireCodec`): the
  hand-written protobuf reader and writer. `Wire` gives the meaning as functions, `WireProofs`
  the round trips, `WireLaws` each message by its field numbers, `WireCodec` the cursor,
  decoders and writers as they run.
- **Realtime lifecycle** (`Access`, `Resume`, `TaskLoop`, `Decisions`, `Channels`, `Renewal`,
  `RenewalRuns`, `Stream`): the concurrent resume protocol, the bounded task loop,
  token renewal against the server's deadlines, and the path of every publication
  from the handshake to the consumer.
- **Signing** (`SigningClock`, `CanonicalQuery`): the lock-free timestamp allocator
  under every interleaving, and the canonical query (sections 2.1 and 2.3 of RFC 3986).
- **Exact numbers** (`Numbers`, `Digits`, `Decimals`, `Ids`, `Trading`): decimal text,
  base58 IDs, and quote accounting in checked `i128`.
- **Failures and pages** (`Failure`, `Answers`, `Verdicts`, `Paging`): what a failed call says about
  the mutation behind it, and token-paged walks.

Code that updates objects or loops over state is a class or a method here, proved
equal to a function; the properties are lemmas about those functions. Concurrency
is a transition system whose steps are single lock sections, atomic operations or
waits, taken in any order; clocks, the network, the consumer and other threads are
parameters the claims quantify over. Integer widths are subset types, and every
checked operation is written out.

Where the code and its own documentation part, the model follows the code:

- Bucketing twice (`src/orderbook/mod.rs:66-97`): a bid priced below the finer size is
  shown at price zero, which a second pass refuses: `Buckets.BucketTwice`,
  `Buckets.LowBidIsRefusedTwice`.
- `trim_scale` (`src/models/trading.rs:138-139`) is said to make rescaling overflow only
  when the digits need it. A zero is trimmed to scale 0 and cannot be rescaled by 39 or
  more places, so a zero fee can lose the total of an order: `Trading.WhenUsedIsKnown`,
  `Trading.ZeroFeeLosesTheTotal`.
- `try_decimal_to_scaled` (`src/codecs/scalars.rs:151`) cuts the digit count to 32 bits, so
  2^32 or more fractional digits can pass the precision check and overflow the padding:
  `Decimals.ExcessDigits`, `Decimals.LongFractionOverflows`.
- `subaccount_channel_id` (`src/realtime/resubscribe.rs:100-110`) tries prefixes in order, so
  `private:spot:triggers:events:proto`, the trigger channel of the ID 24892348236, is read
  as the events channel of the ID 541593548: `Channels.EventsChannelClashes`.
- A code ending in `_OUTCOME_UNKNOWN` is not enough for an unknown outcome: a message that
  is exactly `TIMESTAMP_SKEW` is matched first (`src/errors.rs:961`). That is the only
  exception for the five such codes there are (`Failure.KnownUnknownOutcomeWins`); a future
  code that reads like an authentication failure would be a second (`Failure.UnknownOutcomeWins`).
- An unrecognised code is not always reported as an unknown outcome: prefixes are taken off
  repeatedly before the code lists are searched, so `ERROR_CODE_ERROR_CODE_PAIR_BACKLOGGED`
  at 503 is reported as retryable: `Answers.UnrecognisedAnswer`, `Answers.TwicePrefixedCodesAreMisread`.
- Renewal IDs start over after 2^32 - 3 commands without a look at the pending ones. A server
  that answers in order never meets that (`RenewalRuns.InOrderReusesNothing`); one that leaves a
  command behind that long does, and the client then misses its reply and lets the token
  expire: `RenewalRuns.ReusedIdLosesAToken`.
- Renewal needs latency plus delay strictly below the grace; at equality a token can expire:
  `RenewalRuns.GraceIsNeeded`.

## Model

| member | source | states |
|---|---|---|
| `LocalBook.ApplySideDelta` | src/orderbook/mod.rs:15-27 | The in-place loop leaves the side equal to the row-by-row merge |
| `LocalBook.MergeByPrice` | src/orderbook/mod.rs:15-27 | After a merge each price holds what the last valid row for it says; a price with no row is untouched |
| `LocalBook.LastRowCounts` | src/orderbook/mod.rs:15-27 | Of the rows for one price the last valid one counts, a quantity of zero emptying it |
| `LocalBook.NoRowNoChange` | src/orderbook/mod.rs:15-27 | A price with no valid row keeps its level |
| `LocalBook.LevelsFromPairs` | src/orderbook/mod.rs:101-110 | A snapshot side is the merge of exactly the rows with a positive quantity |
| `LocalBook.SnapshotIsReset` | src/orderbook/mod.rs:100-110 | A snapshot side equals a reset with the same rows over an empty book exactly when no price set by some row is deleted by its last row |
| `LocalBook.ApplyDelta` | src/orderbook/mod.rs:122-178 | Both sides and the returned sequence are the specified next state, and refresh is asked for exactly on an unusable delta |
| `LocalBook.SideFollowsServer` | src/orderbook/mod.rs:122-178 | A truthful side of an applicable delta turns the book at any covered sequence into the server side at its end |
| `LocalBook.RunFollowsServer` | src/orderbook/mod.rs:122-178 | After any list of duplicated, reordered, overlapping, missing or malformed deltas the book is the server book at the sequence it reports, which never fell |
| `LocalBook.ClientsConverge` | src/orderbook/mod.rs:122-178 | Two clients with different streams hold the same book whenever they report the same sequence |
| `LocalBook.RunReachesLatest` | src/orderbook/mod.rs:122-178 | A run asks for no refresh exactly when every delta is sound and none starts beyond what was shown before it plus one, deletions, duplicates and overlaps included; the book then ends at the greatest sequence shown |
| `LocalBook.GapHidesTheBook` | src/orderbook/mod.rs:151-153 | A delta that leaves a gap does not tell the book at its end: servers it is true of, alike so far, differ there in every price it has no row for |
| `LocalBook.LateCopyChangesNothing` | src/orderbook/mod.rs:146-155 | A copy of a sound delta that left no gap is stale and changes nothing, however much arrives in between |
| `LocalBook.RunKeepsCanonical` | src/orderbook/mod.rs:128-140 | Positive prices and quantities are kept through every run |
| `Buckets.CellIsNearest` | src/orderbook/mod.rs:79-88 | A bid bucket is the greatest multiple of the size not above the price, an ask bucket the least not below |
| `Buckets.BucketPrice` | src/orderbook/mod.rs:79-88 | The checked steps give the bucket, and fail exactly when an ask ceiling leaves `i64` |
| `Buckets.AddLevel` | src/orderbook/mod.rs:79-92 | One level goes to its bucket; a refusal shows a bucket price or a final total beyond `i64` |
| `Buckets.BucketSide` | src/orderbook/mod.rs:47-96 | Succeeds exactly when no price is negative, no positive quantity sits at zero, every ceiling and every total fit; then returns exactly the bucketed side |
| `Buckets.BucketsByRange` | src/orderbook/mod.rs:66-96 | A bucket stands at each multiple of the size with a resting level in its range, and holds their sum |
| `Buckets.BucketableByRange` | src/orderbook/mod.rs:66-96 | A side buckets exactly when no price is negative, nothing rests at zero, and each level lies in the range of a multiple within `i64` whose levels sum to no more |
| `Buckets.CheckSide` | src/orderbook/mod.rs:48-64 | Without bucketing a side is accepted exactly when it has no negative entry and nothing positive at price zero |
| `Buckets.TotalsFit` | src/orderbook/mod.rs:89-92 | Buckets whose totals all stayed within `i64` show that every level fits |
| `Buckets.BucketingConserves` | src/orderbook/mod.rs:66-96 | The quantities of the buckets sum to the quantities of the levels |
| `Buckets.FinerIsBucketable` | src/orderbook/mod.rs:66-96 | A size that divides a working size works too |
| `Buckets.BucketTwice` | src/orderbook/mod.rs:66-96 | Bucketing by a and then by a multiple of a equals bucketing by the multiple, exactly when no bid is priced below a |
| `Buckets.LowBidIsRefusedTwice` | src/orderbook/mod.rs:66-96 | A bid at 3 buckets by 10 at once, and by 5, but not by 5 and then by 10 |
| `Buckets.CellsAtZero` | src/orderbook/mod.rs:79-88 | A bucket sits at price zero exactly when a bid is priced below the size |
| `Buckets.SpreadNeverNarrows` | src/orderbook/mod.rs:43-46 | An uncrossed book stays uncrossed at every size and its spread never narrows |
| `Sums.SumOfFibres` | src/orderbook/mod.rs:66-96 | Summing each bucket and then the buckets is summing the levels |
| `Sums.GroupTwice` | src/orderbook/mod.rs:66-96 | Grouping finely and then coarsely is grouping coarsely |
| `BookView.SideToLevels` | src/orderbook/mod.rs:180-216 | The rendered rows are the specified best rows of the bucketed side, or nothing when any part is refused |
| `BookView.BuildOrderbookData` | src/orderbook/mod.rs:220-239 | Both sides rendered under one depth and size, refused when either is |
| `BookView.RendersExactly` | src/orderbook/mod.rs:189-216 | What is refused, by entries and rows: negative or at zero when unbucketed, a row not positive save a bid bucket at zero, any row beyond scale 36 |
| `BookView.RowsAreTheBest` | src/orderbook/mod.rs:189-196 | Rows are levels of the side, bids strictly descending and asks strictly ascending, as many as the depth allows |
| `BookView.LevelLeftOutIsWorse` | src/orderbook/mod.rs:189-196 | A level not shown is worse than every row |
| `BookView.DepthIsPrefix` | src/orderbook/mod.rs:195-216 | A shallower rendering is the start of a deeper one |
| `BookView.ReachableBookRenders` | src/orderbook/mod.rs:132-138 | Every book reachable from positive levels renders unbucketed |
| `BookView.BucketedSideRenders` | src/orderbook/mod.rs:199-213 | A side renders at a bucket size exactly when it buckets, bid buckets at zero included |
| `BookView.RenderedBookIsUncrossed` | src/orderbook/mod.rs:43-46 | Every rendered bid is below every rendered ask of an uncrossed book |
| `Wire.VarintReadsBack` | src/realtime/protocol.rs:267-273 | Every `u64` written as a varint reads back from exactly its own bytes |
| `Wire.VarintIgnoresWhatFollows` | src/realtime/protocol.rs:305-326 | Reading a varint does not depend on the bytes behind it |
| `WireProofs.ReplyFrameReadsBack` | src/realtime/renewal_tests.rs:344-369 | A reply to connect, subscribe, refresh or sub-refresh, with its field numbers written out, decodes to its ID and the lifetime it grants, and to nothing else |
| `WireProofs.ErrorFrameReadsBack` | src/realtime/renewal_tests.rs:371-379 | An error reply decodes to its code and text exactly when the text is UTF-8; otherwise the frame fails |
| `WireProofs.UnsubscribeFrameReadsBack` | src/realtime/renewal_tests.rs:381-391 | An unsubscribe push decodes to its channel, code and reason |
| `WireProofs.PublicationFrameReadsBack` | src/realtime/renewal_tests.rs:393-401 | A publication frame decodes to its payload, whatever the bytes |
| `WireProofs.ConnectReadsBack` | src/realtime/protocol.rs:41-47 | The connect command parses back to its ID and token |
| `WireProofs.SubscribeReadsBack` | src/realtime/protocol.rs:49-57 | The subscribe command parses back to its ID, channel and token |
| `WireProofs.RefreshReadsBack` | src/realtime/protocol.rs:60-65 | The refresh command parses back to its ID and token |
| `WireProofs.SubRefreshReadsBack` | src/realtime/protocol.rs:68-73 | The sub-refresh command parses back to its ID, channel and token |
| `WireProofs.FramesConcatenate` | src/realtime/protocol.rs:88-109 | Two decodable frames joined within the size limit decode to both results in order |
| `WireProofs.RepliesAreBounded` | src/realtime/protocol.rs:88-109 | Messages, payload bytes, error texts, channels and reasons decoded from a frame together come to at most three times its length |
| `WireLaws.VarintMeans` | src/realtime/protocol.rs:305-326 | A varint is read exactly where one stands, as the number its seven-bit groups spell, least significant first, using just its bytes |
| `WireLaws.EncodedIsShortest` | src/realtime/protocol.rs:267-273 | A number is written as the shortest of its varints |
| `WireLaws.FieldsByWireType` | src/realtime/protocol.rs:293-372 | A field by its number and wire type: 0 a varint, 2 a length and its bytes, 1 eight bytes, 5 four; no other is read |
| `WireLaws.DecodeIsSteps` | src/realtime/protocol.rs:111-239 | Decoding a message is stepping through its fields in order |
| `WireLaws.LifetimeByNumbers` | src/realtime/protocol.rs:141-162 | Fields 3 and 4 of results 5 and 14, and 1 and 2 of results 6 and 15, tell whether and when the token expires |
| `WireLaws.OtherFieldsGrantNothing` | src/realtime/protocol.rs:141-162 | A result with other fields only grants no lifetime |
| `WireLaws.ResultFramesGrant` | src/realtime/protocol.rs:141-162 | Each of the four result frames, written out, decodes to its ID and lifetime, a lifetime of 0 included |
| `WireLaws.ErrorByNumbers` | src/realtime/protocol.rs:164-184 | An error has its code in field 1, its text in 2 and whether it is temporary in 3; it is refused exactly for a code beyond `u32` or a text that is not UTF-8 |
| `WireLaws.UnsubscribeByNumbers` | src/realtime/protocol.rs:210-227 | An unsubscribe has its code in field 2 and its reason in 3 |
| `WireLaws.PublicationByNumbers` | src/realtime/protocol.rs:229-239 | The payloads of a publication are its fields 4, in order |
| `WireLaws.PushByNumbers` | src/realtime/protocol.rs:186-207 | A push names its channel in field 2, publishes in fields 4 and ends the subscription in 7, the end behind what it published |
| `WireLaws.ReplyByNumbers` | src/realtime/protocol.rs:111-139 | A reply is passed on behind its pushes unless it names no command and no error but holds a push; an empty record is a ping |
| `WireLaws.LongFramesAreRefused` | src/realtime/protocol.rs:88-101 | A frame of more than 8 MiB, or announcing a longer record, is refused |
| `WireLaws.FramesAreRecords` | src/realtime/protocol.rs:92-109 | A frame is a row of records, each behind its length |
| `Utf8.LossyKeepsValid` | src/realtime/protocol.rs:210-227 | Replacing malformed UTF-8 leaves valid text as it is |
| `Utf8.ValidIsEncoded` | src/realtime/protocol.rs:164-184 | Valid bytes are the encoding of some sequence of Unicode scalar values |
| `Utf8.EncodedIsValid` | src/realtime/protocol.rs:164-184 | The encoding of any scalar values is valid |
| `Utf8.MalformedIsReplaced` | src/realtime/protocol.rs:186-227 | Each malformed part is replaced by one U+FFFD, the part being the longest start of a character, or one byte |
| `WireCodec.Cursor.ReadVarint` | src/realtime/protocol.rs:305-326 | The loop reads the varint of the spec and moves exactly past it; the error behind the loop is unreachable |
| `WireCodec.Cursor.ReadKey` | src/realtime/protocol.rs:293-303 | A field number in `u32`, not zero, and a wire type, or an error |
| `WireCodec.Cursor.Take` | src/realtime/protocol.rs:340-349 | Exactly the next bytes, or an error that takes none |
| `WireCodec.Cursor.ReadLenBytes` | src/realtime/protocol.rs:328-338 | A length-delimited value within the message limit |
| `WireCodec.Cursor.Skip` | src/realtime/protocol.rs:351-372 | An unread field is passed over exactly |
| `WireCodec.ReadError` | src/realtime/protocol.rs:164-184 | The decoder with its cursor equals the field-by-field meaning of an error |
| `WireCodec.ReadExpiry` | src/realtime/protocol.rs:144-162 | Likewise for the lifetime in a result |
| `WireCodec.ReadUnsubscribe` | src/realtime/protocol.rs:210-227 | Likewise for an unsubscribe |
| `WireCodec.ReadPublication` | src/realtime/protocol.rs:229-239 | Likewise for a publication, appended to what is already out |
| `WireCodec.ReadPush` | src/realtime/protocol.rs:186-207 | Likewise for a push and its channel |
| `WireCodec.ReadReply` | src/realtime/protocol.rs:111-139 | Likewise for a reply, its error or result, or a ping |
| `WireCodec.ReadReplies` | src/realtime/protocol.rs:88-109 | The whole frame decoder equals its specification on every input, and ends |
| `WireCodec.Writer.WriteVarint` | src/realtime/protocol.rs:267-273 | The loop over the shrinking value appends exactly the encoding |
| `WireCodec.WriteCommand` | src/realtime/protocol.rs:81-86 | The command bytes are the length-delimited ID and request |
| `SigningClock.SigningTimestampAllocator.CompareExchangeWeak` | src/auth.rs:49-56 | The exchange stores only over the observed value, and may fail spuriously |
| `SigningClock.SigningTimestampAllocator.Next` | src/auth.rs:32-60 | Whatever others do between its steps, a call returns a timestamp above all stored before it and within 5 s above its own clock reading, or the error of that reading |
| `SigningClock.WaitIsExact` | src/auth.rs:34-59 | After a capacity error the same thread, undisturbed and without a spurious failure, is issued a timestamp exactly when its next clock reading is at least the returned wait later |
| `SigningClock.RunKeepsInv` | src/auth.rs:32-60 | Order, nearness and pending exchanges stay consistent through every interleaving |
| `SigningClock.TimestampsAreUniqueAndNear` | src/auth.rs:32-60 | All timestamps of one key are distinct and rise in exchange order, each within 5 s above its own reading, for any number of threads, spurious failures and any clock |
| `SigningClock.TimestampsAreLeast` | src/auth.rs:32-60 | Under every interleaving each timestamp is the clock reading or one above the last, whichever is more |
| `SigningClock.UndisturbedCall` | src/auth.rs:32-60 | An undisturbed call is issued that timestamp exactly when its clock can be used and the last one lies less than 5000 ms ahead |
| `SigningClock.IssueRateIsBounded` | src/auth.rs:32-60 | At most b - a + 5001 timestamps come from readings in [a, b] |
| `CanonicalQuery.ComponentReadsBack` | src/auth.rs:270-288 | Percent-encoding and form decoding are inverse on all byte strings |
| `CanonicalQuery.EncodesByLetter` | src/auth.rs:270-280 | A byte is left as it is exactly when it is an unreserved character, else it is a percent sign and two capital hexadecimal digits |
| `CanonicalQuery.DecodesByLetter` | src/auth.rs:286-288 | A plus is a space, a percent sign with two hexadecimal digits of either case one byte, all else itself |
| `CanonicalQuery.QueryByLetter` | src/auth.rs:289-297 | A query is its parts between `&`, empty ones left out, each a key and a value at its first `=` or a key alone |
| `CanonicalQuery.BytesByFirstDifference` | src/auth.rs:298 | Bytes are in order when one starts the other or is less where they first differ |
| `CanonicalQuery.PrintsByLetter` | src/auth.rs:298-310 | The canonical form orders pairs by key and then value, and joins them with `=` and `&` |
| `CanonicalQuery.PairsReadBack` | src/auth.rs:289-309 | Printed pairs read back as the same pairs in the same order |
| `CanonicalQuery.SortedIsUnique` | src/auth.rs:298 | Only one sorted list has a given multiset of pairs |
| `CanonicalQuery.CanonicalIsIdempotent` | src/auth.rs:282-310 | Canonicalising a canonical query changes nothing |
| `CanonicalQuery.CanonicalIdentifiesPairs` | src/auth.rs:282-310 | Two raw queries have one canonical form exactly when their multisets of decoded pairs are equal |
| `CanonicalQuery.ReorderingChangesNothing` | src/auth.rs:289-298 | Reordering the parts of a query does not change its canonical form |
| `Access.SubaccountAccess.NoteUpdate` | src/realtime/resubscribe.rs:191-204 | An update marks or unmarks its sub-account; the ID 0 is ignored |
| `Access.SubaccountAccess.SeenRemoved` | src/realtime/resubscribe.rs:206-208 | Tells whether the sub-account is marked removed |
| `Access.SubaccountAccess.ReserveAttempt` | src/realtime/resubscribe.rs:300-306 | Takes the next free slot, now at the earliest, and moves the following one on by the spacing |
| `Access.SubaccountAccess.JoinRead` | src/realtime/resubscribe.rs:310-324 | Joins the read still waiting, or creates one due a full interval after the last request |
| `Access.SubaccountAccess.StartRead` | src/realtime/resubscribe.rs:329-334 | Sending the request closes the read to later callers and dates it |
| `Resume.StepKeepsInv` | src/realtime/resubscribe.rs:213-351 | Every step of every decision, read or update keeps the protocol invariant |
| `Resume.GrantsAreSafe` | src/realtime/resubscribe.rs:228-297 | Whenever a subscribe is allowed without a stop request, the ID was not marked removed at the final check, the list naming it answered a request sent after the decision asked, and its slot has come |
| `Resume.RemovalWins` | src/realtime/resubscribe.rs:285-293 | Once a removal is heard with no later update of that ID, no decision that checks afterwards subscribes it |
| `Resume.ChecksGoByUpdates` | src/realtime/resubscribe.rs:229-297 | What each check of a decision comes to in any run, by the updates heard so far |
| `Resume.SlotsAreEarliest` | src/realtime/resubscribe.rs:300-306 | A slot is now or a spacing after the one before, never later |
| `Resume.ReadsAreEarliest` | src/realtime/resubscribe.rs:310-324 | A waiting list read is joined; a new one is due as early as the interval lets it |
| `Resume.RequestsArePaced` | src/realtime/resubscribe.rs:317-334 | List requests start at least the read interval apart in every interleaving |
| `Resume.GrantsArePaced` | src/realtime/resubscribe.rs:300-306 | Reserved slots are at least the spacing apart, and no two allowed subscribes share one |
| `TaskLoop.AwaitResume` | src/realtime/resubscribe.rs:228-297 | The loop reaches the specified verdict, attempts and list reads for every script of observations, and ends |
| `TaskLoop.RunTask` | src/realtime/mod.rs:423-533 | The task loop leaves the specified record and gap count for every script of connections |
| `TaskLoop.RunsAreRecorded` | src/realtime/mod.rs:423-447 | A turn that runs records when its connection was set up, when it ended, and whether the server ended it with a code below 2500; a finished, stopped or overflowing one ends the task there |
| `TaskLoop.TurnsFollowTheCode` | src/realtime/mod.rs:449-533 | Behind its run a turn that follows a server end with a code below 2500 adds a budget and a resume decision and goes on exactly by a grant; any other reads no list, touches no budget and goes on by one backoff |
| `TaskLoop.NextRunComesBy` | src/realtime/mod.rs:423-533 | Of two runs in a row the second comes right behind a grant exactly when the last connection set up was ended by the server with a code below 2500, else behind a backoff |
| `TaskLoop.ResumptionIsBounded` | src/realtime/resubscribe.rs:246-256 | Between two fresh budgets the list is asked for, and subscribes are allowed, at most `max_attempts` times each, reads a stop request cuts short included |
| `TaskLoop.FreshBudgetIsEarned` | src/realtime/resubscribe.rs:162-188 | A server end gives a fresh budget exactly when it is the first or the connection it ended had been up for `stable_after` |
| `TaskLoop.ServerEndNeedsGrant` | src/realtime/mod.rs:449-485 | After a server end the next connection comes right after an allowed resume |
| `TaskLoop.GivingUpIsFinal` | src/realtime/mod.rs:478-484 | Nothing follows the error that ends the subscription |
| `TaskLoop.GapCountsReconnections` | src/realtime/mod.rs:659-672 | The gap count is the number of connections set up after the first |
| `Decisions.DecisionsAreLoops` | src/realtime/resubscribe.rs:213-297 | Each decision, taken step by step among all others, ends with the verdict, attempts and list reads the loop of its task reaches on what it met; until then each turn has spent one attempt |
| `TaskLoop.WaitsAreInRange` | src/realtime/resubscribe.rs:128-134 | Each wait lies between half its cap and the cap; the cap of a resume attempt doubles per attempt since the last fresh budget, that of an ordinary reconnect per failure in a row since a connection was set up, from 500 ms to 30 s |
| `TaskLoop.CapIsDoubled` | src/realtime/resubscribe.rs:128-134 | The cap of a resume attempt is the initial backoff doubled per attempt, up to the longest duration |
| `TaskLoop.ReconnectCaps` | src/realtime/mod.rs:124-128 | The caps of ordinary backoffs: 500 ms doubled up to 16 s, then 30 s |
| `TaskLoop.DelaysCoverTheirRange` | src/realtime/resubscribe.rs:128-134 | Every wait in its range comes about by some random number |
| `TaskLoop.ReconnectsCoverTheirRange` | src/realtime/mod.rs:124-137 | Likewise for ordinary backoffs |
| `Channels.ChannelNamesItsSubaccount` | src/realtime/resubscribe.rs:100-110 | A channel leads back to its sub-account ID, exactly but for the protobuf trigger channel of the ID 24892348236, which is written `events` |
| `Channels.EventsChannelClashes` | src/realtime/resubscribe.rs:27-34 | The protobuf trigger channel of the ID 24892348236 is read as the events channel of the ID 541593548 |
| `Channels.ChannelsByName` | src/realtime/resubscribe.rs:27-34 | The six channels of a sub-account by name, with and without `:proto`, lead back to its ID |
| `Channels.OtherChannels` | src/realtime/resubscribe.rs:100-110 | Any other channel is governed by no sub-account |
| `Channels.OnlyOneId` | src/realtime/resubscribe.rs:106-108 | Nothing, or anything with a colon, behind the prefix names no sub-account |
| `Renewal.TokenRenewer.Schedule` | src/realtime/renewal.rs:122-126 | A renewal falls due its TTL after the reply that named it, or is left alone |
| `Renewal.TokenRenewer.NextDue` | src/realtime/renewal.rs:129-131 | The earliest due time, if any |
| `Renewal.TokenRenewer.StartDue` | src/realtime/renewal.rs:134-149 | Exactly the due kinds are started and unscheduled |
| `Renewal.TokenRenewer.Command` | src/realtime/renewal.rs:153-163 | The command takes the next ID, records its kind and moves the ID on |
| `Renewal.TokenRenewer.TakeReply` | src/realtime/renewal.rs:167-186 | A reply to a pending command clears it and, when not refused, schedules from its arrival; any other ID is left alone |
| `Renewal.IdsAreDistinct` | src/realtime/renewal.rs:154-155 | Command IDs are at least 3 and repeat only after all 2^32 - 3 of them |
| `RenewalRuns.StepKeepsInv` | src/realtime/renewal.rs:122-186 | Every step keeps each token in the place its stage says and ahead of its deadline |
| `RenewalRuns.OnePlacePerToken` | src/realtime/renewal.rs:122-186 | In every run, whatever the server does, each token is in at most one place on the books of the client: scheduled, being fetched, fetched, in a command awaiting its reply |
| `RenewalRuns.InOrderReusesNothing` | src/realtime/renewal.rs:153-163 | While the server answers commands in the order they were sent, no run of any length takes an ID still awaiting its reply |
| `RenewalRuns.FirstPeriodReusesNothing` | src/realtime/renewal.rs:153-163 | In whatever order it answers, the first 2^32 - 3 commands of a connection reuse no ID |
| `RenewalRuns.EveryReplyIsHeard` | src/realtime/renewal.rs:167-186 | While no ID still awaiting its reply is reused, the client takes each reply for the renewal it answers |
| `RenewalRuns.ReusedIdLosesAToken` | src/realtime/renewal.rs:153-186 | Answered out of order, the very next command can reuse such an ID: in a run within any bounds the client misses a reply, and a token that was not refused and whose fetch did not fail expires |
| `RenewalRuns.NoTokenExpires` | src/realtime/renewal_tests.rs:403-475 | When reply latency and renewal delay together stay below the grace and no ID still awaiting its reply is reused, no token expires that was not refused or failed to fetch; the connection TTL counts from its own reply |
| `RenewalRuns.GraceIsNeeded` | src/realtime/renewal_tests.rs:403-475 | At or above the grace some run within the bounds lets a good token expire |
| `Stream.Session.ReadReply` | src/realtime/mod.rs:1013-1083 | Waits for the reply to a setup command, and ends with it, with its refusal or with the first message that breaks the connection off; all else is held back in order up to 200, every ping is answered, a full buffer is an error |
| `Stream.Session.TakeFrame` | src/realtime/mod.rs:1030-1061 | A whole frame is taken in, what follows the reply in it included |
| `Stream.Session.Handshake` | src/realtime/mod.rs:560-609 | Both setup replies have arrived and nothing between them is lost |
| `Stream.Session.Deliver` | src/realtime/mod.rs:713-741 | Members are offered in order, undecodable ones left out, up to the first the queue refuses |
| `Stream.Session.HandlePublication` | src/realtime/mod.rs:708-741 | A publication is delivered whole, or ends the stream with the prefix delivered |
| `Stream.Session.HandleNext` | src/realtime/mod.rs:702-769 | The oldest incoming alone is taken up; a reply goes to the renewal it answers; an unsubscribe of this channel or a refusal answering no renewal ends the stream with just that error, a ping exactly when its pong cannot be written, and a publication only when malformed or not taken whole; nothing else does |
| `Stream.Session.ReadFrame` | src/realtime/mod.rs:770-830 | A frame is queued whole behind nothing; a due renewal starts its fetch and a fetched token takes the next ID |
| `Stream.Session.Stream` | src/realtime/mod.rs:675-832 | The first turn that meets an unsubscribe of this channel, a refusal answering no renewal awaited then, a malformed publication or a message that breaks the connection off is the last one and gets just that end, which comes nowhere else; at every end what was delivered is a prefix of the decodable members of all publications in arrival order, at a connection loss all of them |
| `Stream.Session.Turn` | src/realtime/mod.rs:698-832 | One turn takes up the oldest incoming or meets the next message, and steps the renewals by it |
| `Stream.NothingLost` | src/realtime/mod.rs:698-769 | Items delivered and items held back make up the items that arrived, in order |
| `Stream.LastingsHoldItems` | src/realtime/mod.rs:1046-1061 | Setting pings and setup replies aside drops no item |
| `Decimals.IsStrictDecimal` | src/codecs/scalars.rs:92-117 | The scan accepts exactly `digits` or `digits.digits` |
| `Decimals.TryDecimalToScaled` | src/codecs/scalars.rs:138-163 | The string-building steps give the specified integer or error |
| `Decimals.ScaledExactly` | src/codecs/scalars.rs:138-163 | Parsing returns n exactly when the trimmed text is a strict decimal whose value times 10^scale is n and n fits `i128` |
| `Decimals.ExcessDigits` | src/codecs/scalars.rs:151-160 | Which error too many fractional digits give, the 32-bit cut of their count included |
| `Decimals.RefusedExactly` | src/codecs/scalars.rs:138-163 | A scale beyond 36, text that is no strict decimal, and a value beyond `i128` are refused, each with its error |
| `Decimals.LongFractionOverflows` | src/codecs/scalars.rs:151-160 | `0.` and 2^32 ones overflow at every scale; with one digit less the precision is refused |
| `Decimals.FormatIsCanonical` | src/codecs/scalars.rs:292-313 | The text of a value >= 0 is canonical and denotes value / 10^scale |
| `Decimals.FormatFails` | src/codecs/scalars.rs:292-313 | Formatting fails exactly for a scale beyond 36 and, where digits are placed, for the one magnitude beyond `i128` |
| `Decimals.FormatReadsBack` | src/codecs/scalars.rs:292-313 | Parsing formatted text gives the value back, for every value >= 0 and scale up to 36 |
| `Decimals.CanonicalIsUnique` | src/codecs/scalars.rs:119-135 | Each scaled integer has one canonical text |
| `Decimals.FormattingCanonicalises` | src/codecs/scalars.rs:119-163 | Formatting a parsed decimal gives the one canonical text of its value and leaves canonical text alone |
| `Decimals.NegativeTextIsRefused` | src/codecs/scalars.rs:292-313 | A negative value prints with a sign, which strict parsing refuses |
| `Decimals.OrderOfText` | src/codecs/scalars.rs:267-272 | Length and then text order is numeric order once leading zeros are gone |
| `Decimals.LedgerExactly` | src/codecs/scalars.rs:258-290 | A balance is accepted exactly when it is all digits with a value within `u128`, and printed as that value over 10^scale |
| `Decimals.LedgerRefusals` | src/codecs/scalars.rs:258-290 | A balance is refused for not being all digits, else for its range, else for its scale |
| `Decimals.LedgerAgreesWithScaled` | src/codecs/scalars.rs:258-313 | Both formatters print the same text on their shared range |
| `Ids.Base58ReadsBack` | src/codecs/scalars.rs:315-325 | The base58 text of an ID decodes to it |
| `Ids.IdReadsBack` | src/codecs/scalars.rs:332-360 | Every `u64` survives formatting and parsing, all-digit texts included |
| `Ids.FormatIdIsInjective` | src/codecs/scalars.rs:353-360 | Different IDs have different texts |
| `Ids.DigitsReadAs` | src/codecs/scalars.rs:339-349 | An all-digit text reads as the ID it is the canonical text of, otherwise as its decimal value when that fits |
| `Ids.TextReadsAs` | src/codecs/scalars.rs:315-349 | A text with another character reads as its number in base 58, exactly when that and a byte for each leading `1` take no more than eight bytes |
| `Ids.FormatsInBase58` | src/codecs/scalars.rs:353-360 | An ID is written in base 58 in the Bitcoin alphabet without a leading `1`, and 0 as `1` |
| `Ids.AlphabetIs` | src/codecs/scalars.rs:315-325 | The digits are the 58 characters in their order |
| `Trading.Trimmed` | src/models/trading.rs:140-146 | The loop computes the trimmed value and scale |
| `Trading.TrimIsLeast` | src/models/trading.rs:138-146 | Trimming keeps the worth and finds the least scale that holds every digit |
| `Trading.RescaleExactly` | src/models/trading.rs:149-151 | Rescaling is exact; a non-zero value fails only when the result does not fit, zero as soon as the scales are 39 apart |
| `Trading.QuoteUsedIsExact` | src/models/trading.rs:192-215 | The quote used equals the notional plus, less or without the fee, as exact rationals |
| `Trading.CommonScaleIsLeast` | src/models/trading.rs:199-206 | The result scale is the least at which notional and fee are both integers |
| `Trading.WhenUsedIsKnown` | src/models/trading.rs:192-214 | An order yields a total exactly when it covers all fills and both texts parse, the scales fit, and the trimmed operands rescale and add within range |
| `Trading.ZeroFeeLosesTheTotal` | src/models/trading.rs:138-139 | An order with notional 1 and a zero quote fee has no total at base scale 30, and has it at 29 |
| `Trading.ExactDecimalExactly` | src/models/trading.rs:133-136 | A decimal is produced exactly when some decimal has that worth |
| `Trading.QuoteUsedAsDecimal` | src/models/trading.rs:185-188 | The reported decimal is worth exactly the total, and is given whenever some decimal is |
| `Trading.UsedAndUnspentMakeSubmitted` | src/models/trading.rs:222-237 | What was used and what was not make up what was submitted, exactly |
| `Trading.WhenUnspentIsKnown` | src/models/trading.rs:222-237 | The remainder is known exactly when the order was sized by a quote amount, what was used is known, both and their difference fit at the common scale, and some decimal is worth it |
| `Trading.SignedAmountReads` | src/models/trading.rs:125-131 | An amount is read with at most one sign and at least one digit, in range |
| `Trading.PlainAmountReads` | src/models/trading.rs:125-131 | Without a sign likewise; no digits, or anything else among them, is refused |
| `Paging.Paginate` | src/services/changelog.rs:205-240 | The stream yields the items of the fetched pages once each in order, and ends at the last page, at a failed fetch, or at a repeated token in place of that page |
| `Paging.ItemsInOrder` | src/services/changelog.rs:205-240 | The items of each page come behind those of the pages before it, in their own order |
| `Paging.WalkIsBounded` | src/services/changelog.rs:202-204 | With N non-empty tokens there are at most N + 1 fetches, none for a token already asked for |
| `Paging.WalksStopTogether` | src/services/changelog.rs:205-240 | From one start there is one walk, however the seen tokens are kept |
| `Paging.StopAllTrading` | src/client.rs:479-530 | A listing error cancels nothing; otherwise every collected trigger is canceled in order, each outcome recorded, before the one cancel-all |
| `Paging.CallsInOrder` | src/client.rs:479-530 | The calls are the lists, then one cancel per trigger in turn, then the one cancel-all |
| `Paging.ThoseInOrder` | src/client.rs:508-518 | Each result keeps the order of the list |
| `Paging.EveryTriggerLandsOnce` | src/client.rs:508-518 | Every occurrence of a collected trigger is in exactly one of the two results |
| `Paging.BothWalksAgree` | src/client.rs:484-506 | Stopping all trading asks for the same pages and stops for the same reason as the stream from an empty start |
| `Failure.MapConnectError` | src/errors.rs:927-1289 | Going through the sorted details until one decides gives the specified error |
| `Verdicts.MarkersDecide` | src/errors.rs:940-1013 | A marker of this SDK decides alone, then a message that is a time skew, then one that names an unknown outcome where no detail does |
| `Verdicts.DecidingVerdict` | src/errors.rs:966-981 | Of the details that say anything, the first by rank and then by place decides, wherever the others stand |
| `Verdicts.RateLimitDecides` | src/errors.rs:1074-1081 | A rate-limit detail that says anything reports the call as rate limited |
| `Verdicts.AuthDecides` | src/errors.rs:1033-1072 | Each auth code with an error of its own gives it: time skew, session, the six key faults; any other is passed on |
| `Verdicts.OrderDecides` | src/errors.rs:1082-1146 | A capacity code or a backoff is a rate limit unless the outcome is unknown or the refusal final; at an unavailable service an admission refusal is told from a failure |
| `Verdicts.ServiceDecides` | src/errors.rs:1147-1219 | Withdrawal and transfer codes know a rate limit, ledger codes none; an unavailable service failed |
| `Verdicts.SpecialIsPassedOn` | src/errors.rs:1220-1250 | With no deciding detail a code the status gives a meaning is passed on, an admission refusal at 503 reported as one |
| `Verdicts.ConnectCodeDecides` | src/errors.rs:1251-1289 | Otherwise each Connect code gives its own error |
| `Verdicts.OutcomeUnknownExactly` | src/errors.rs:591-601 | A mutation may still have been applied exactly after these errors |
| `Verdicts.RetryableExactly` | src/errors.rs:568-581 | A call may be tried again exactly after these, none of which leaves its outcome open |
| `Verdicts.ListedCodes` | src/errors.rs:825-873 | The capacity codes, final refusals and admission refusals by name |
| `Verdicts.AuthLikeExactly` | src/errors.rs:769-776 | A code reads like an authentication failure exactly when one of five words is in it |
| `Failure.UnknownOutcomeWins` | src/errors.rs:961-1013 | Without SDK markers, an order detail naming an unknown outcome makes the error one, exactly unless the message is `TIMESTAMP_SKEW` or the first such code reads like an authentication failure |
| `Failure.KnownUnknownIsNotAuthLike` | src/errors.rs:1720-1727 | None of the five `_OUTCOME_UNKNOWN` order codes reads like an authentication failure |
| `Failure.GeneratedIsMet` | src/errors.rs:1720-1727 | The premises on the generated names can be met with all five `_OUTCOME_UNKNOWN` codes among them |
| `Failure.KnownUnknownOutcomeWins` | src/errors.rs:961-1013 | With the codes the enums hold, `TIMESTAMP_SKEW` is the only exception |
| `Answers.UnknownOutcomeAnswer` | src/transport.rs:347-385 | A body code ending in `_OUTCOME_UNKNOWN` leaves the outcome unknown at any status, through transport and mapping, under the same two exceptions |
| `Answers.UnreadAnswer` | src/transport.rs:462-494 | An answer whose body is not readable JSON is classified by its status alone and then always leaves the outcome unknown, whatever REST problem its bytes hold |
| `Verdicts.KnownCodeAnswer` | src/transport.rs:415-460 | A known code is reported by its status, through transport and mapping |
| `Verdicts.CapacityAnswer` | src/transport.rs:386-407 | A capacity code this SDK knows is a rate limit at any status, the exhausted order sequence is passed on, an unknown one is left to the transport library |
| `Verdicts.AuthProblemAnswer` | src/transport.rs:408-414 | The two auth codes with a rule of their own are reported as such |
| `Verdicts.SkewAnswer` | src/transport.rs:415-417 | A time skew named as the code is reported as one at any status |
| `Verdicts.ConnectAnswer` | src/transport.rs:334-346 | Of the answers with a Connect code only one that says nothing is read here, and only at 401 and 403 |
| `Verdicts.UncodedAnswer` | src/transport.rs:462-494 | An answer with no code goes by its status; a 404 of a router reports the route missing, any other leaves the outcome unknown save for a time skew |
| `Answers.KnownUnknownOutcomeAnswer` | src/transport.rs:347-385 | For the five known codes the outcome is unknown exactly unless the error message is `TIMESTAMP_SKEW` |
| `Answers.UnrecognisedAnswer` | src/transport.rs:386-441 | An unrecognised code is classified exactly unless it reads, prefixes taken off, as a retryable capacity code; it then leaves the outcome unknown and is not retryable, exactly unless the status is 503, the code reads as an admission refusal, the problem is attached or there is no further message, and the message names no unknown outcome |
| `Answers.TwicePrefixedIsUnrecognised` | src/errors.rs:825-873 | A code with the prefix twice is recognised only when it names an unknown outcome |
| `Answers.TwicePrefixedCodesAreMisread` | src/errors.rs:1212-1235 | At 503 the unrecognised `ERROR_CODE_ERROR_CODE_PAIR_BACKLOGGED` becomes a retryable admission refusal, and the same with `OVERLOADED` is left to the transport library |
| `Answers.PrefixesDoNotCount` | src/errors.rs:825-873 | The code lists are matched with the prefix taken off any number of times |

## Left out

- RenewalRuns.NoTokenExpires: holds while no command takes an ID still awaiting its reply: always when the server answers in order, and in any order for the first 2^32 - 3 commands; beyond that it can fail (`RenewalRuns.ReusedIdLosesAToken`).
- TaskLoop.RunTask: a stop request during a wait cuts it short and ends the task; how long the cut wait lasted is not modelled.
- Answers.UnrecognisedAnswer: takes as premises the few names the generated enums hold and the shapes they do not have; an answer left to the transport library gets no verdict.
- `SigningTimestampAllocator::next_async` serialises callers and sleeps around the modelled call; it adds no state.
- Error texts, logging, callbacks and recorded errors: only the kind and code of an error are modelled.
- Field violations, existing order IDs and retry-after hints carried by errors.
- Decoding of protobuf error details from base64: details arrive decoded.
- The generated protobuf messages and enums: a code is a name the enum knows, a number it does not, or unset.
- `url::Url` parsing: the canonical query starts from the raw query bytes.
- bs58 is taken as positional notation with a '1' for each leading zero byte.
- `Price`, `Quantity` and `Decimal` are taken by their ranges; their arithmetic is not part of this model.
- Sockets, TLS, HTTP and the async runtime; saturating arithmetic on durations.
- Ed25519, SHA-256, keccak, secp256k1 and everything under `src/chain`.
- `snapshot_then_stream`, `private_orders`, catalog lookups, service wrappers and the Python scripts, which would add only easier members.
