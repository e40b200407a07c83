# Verification model of the freight-brokerage bot

The bot answers clients on Telegram through an MTProto proxy, asks suppliers for rates, prices offers, keeps deals and
loads a mail archive. This project models the parts whose correctness is a matter of state and arithmetic, and proves
what they are for. Verify with Dafny 4.11: `dafny verify dfyconfig.toml`.

| file | what it models |
|---|---|
| `Wrappers.dfy`, `Numbers.dfy` | an optional value; the larger and the smaller of two reals |
| `Bytes.dfy` | byte strings and the fixed-width integers written into them |
| `TlsRecords.dfy` | record framing (section 5.1 of RFC 8446), the writer and the incremental reader |
| `FakeTlsSocket.dfy` | the socket: raw mode, handshake, switch to application mode, reads under any arrival of chunks and any break |
| `PaddedIntermediate.dfy` | the packet codec and the whole way of packets through the transport |
| `ClientHello.dfy` | the hello printer, a strict parser for it (sections 4.1.2 and 4.2 of RFC 8446, section 3 of RFC 6066), the stamped random field |
| `SlidingWindow.dfy`, `FixedWindow.dfy` | the two rate limiters, over the series of instants in `Instants.dfy` |
| `Stages.dfy` | deal stages, the reading of a client's intent |
| `DealStore.dfy` | which deal a chat's message goes to, over whole runs |
| `DealTurn.dfy` | client turns, quote runs, staff steps and decisions on one deal: the approval hold on prices and the escalations |
| `Retry.dfy` | queue attempts that crash, overlap and repeat around an idempotency row |
| `MailIngest.dfy` | the deduplicating mail loader and its counters |
| `Scrub.dfy` | the scrubbing of free text and of the cargo text before they go to suppliers |
| `Pricing.dfy`, `Ranking.dfy` | offer prices and supplier ranking in exact arithmetic |
| `Budget.dfy` | the GPT spending caps under concurrent workers that check and record day and month one after the other |

Objects whose methods update fields are classes, loops are loops with invariants, and each such method is proved against
a specification function or a stated property; the theorems are about those functions and about runs of steps.

## What turned out not to hold, and when it does

- A reconnect keeps the tail of the old connection (`rawHold` is not reset). Connecting again is right for every peer
  exactly when that tail is empty (`ReconnectNeedsEmptyHold`).
- The offer rises with the discount asked for, and its closed form fails, exactly when the target markup does not
  cover the floor margin (`NeverRisesExactly`, `ClosedFormExactly`). With no discount asked for, as the quote pipeline
  does, pricing itself never notices; the later check does (`BreachOnlySeenByCheck`).
- A quote in a foreign currency keeps its effective cost for every price exactly when the rate is the same on the
  later turn (`ForeignKeptExactly`, with a pair of rates in `ForeignQuoteMoves`). A rouble quote keeps it for every
  price exactly when it is not without VAT or the VAT percentage is the same (`RoubleKeptExactly`, with 20 and 22
  percent in `RoubleQuoteMoves`).
- The day and the month key are written one after the other. Once all is recorded, every month is the sum of its days
  exactly when no positive cost was split across a month's end (`MonthsAgreeExactly`); any call recorded as a month
  ends is (`SplitKeysDrift`). What unusable answers cost is never recorded (the contract of `ChatParsed`).
- Scrubbing lasts exactly for the secrets that the replacements do not spell (`LastingExactly`). On the cargo text it
  lasts exactly for those that the factory's own replacement can neither spell nor end (`CargoLastingExactly`); a name
  that ends in "завод" is put together again (`FactoryPassRecreates`, `PlantGivesWay`).
- With the row stored, an attempt can still queue replies exactly when it is in flight (`OverlapQueuesExactly`), so
  any two overlapping attempts can both do so (`OverlapQueuesTwice`). Replies not queued when the writing attempt dies
  are lost (`LostForGood`), and once the row has expired it is never replaced (`ExpiredForGood`).
- A closed deal keeps its active flag, and reopening it can give a chat two (`ReopenExactly`, `ReopenedDealsCollide`).
  A split-off second order is not pinned: every later message goes to the first one (`ChatStays`).
- A quote run that fails between saving the price and saving its hold, on a deal that is not paused, leaves the price
  to the next plain question (`BrokenRunLeaks`). Once the pause is off, for whatever staff reason, the hold in the
  metadata guards only the acceptance (`KpHoldGuardsAcceptanceOnly`), and held messages outlive the offer they state
  (`StalePriceReleased`): an approval sends the present offer's price exactly when that offer is not pending again
  (`ApproveKp`). A manager's decision moves the deal on and leaves the hold as it is (`Decide`).
- A reason has two pending escalations only after one was put in through the API, which does not look for a pending
  one: exactly then if it finds one (`SecondPending`).
- Execution falls back to contract exactly for a hinted acceptance of a priced, unguarded offer
  (`ExecutionFallsBackExactly`); a terminal proposal is not held (`TerminalLetsFall`).
- An address that is new to a run keeps its client in later runs exactly when the tables knew the address, or neither
  the phone nor the INN of its first card (`AddressKeptExactly`, with a run in `AddressForgotten`).
- An API request limit below one admits nobody, whatever the Retry-After says (`RetryAfterSuffices`).

## Model

| member | source | states |
|---|---|---|
| TlsRecords.Deframe | apps/tg-gateway/src/mtprotoFakeTls.ts:243-253 | what is held back is never a whole record; with what is delivered it is no longer than what came |
| TlsRecords.DeframeAppend | apps/tg-gateway/src/mtprotoFakeTls.ts:243-253 | reading a and then b delivers and holds the same as reading a + b, for arbitrary bytes |
| TlsRecords.DeframeMeaning | apps/tg-gateway/src/mtprotoFakeTls.ts:243-253 | of any printed records and an unfinished tail, exactly the application payloads are delivered and the tail is held |
| TlsRecords.DeframeCovers | apps/tg-gateway/src/mtprotoFakeTls.ts:243-253 | every byte string is such a list of records and such a tail |
| TlsRecords.Pieces | apps/tg-gateway/src/mtprotoFakeTls.ts:107-116 | a buffer is cut into application records of 1 to 2878 bytes whose payloads make it up |
| TlsRecords.WrapTlsAppData | apps/tg-gateway/src/mtprotoFakeTls.ts:107-116 | the wrapped buffer is those records printed, and the reader gets the buffer back with no residue |
| TlsRecords.WritesDeframe | apps/tg-gateway/src/mtprotoFakeTls.ts:226-229 | several writes arrive as one stream, with no residue |
| FakeTlsSocket.TakeRecordReads | apps/tg-gateway/src/mtprotoFakeTls.ts:276-284 | taking a record off is a five-byte read, a type check and a read of the length in it |
| FakeTlsSocket.AcceptedExactly | apps/tg-gateway/src/mtprotoFakeTls.ts:265-272 | a response is accepted if and only if a proxy with the secret made it for this hello; one too short for a digest and one with a wrong digest are told apart |
| FakeTlsSocket.OtherHello | apps/tg-gateway/src/mtprotoFakeTls.ts:265-272 | a response made for one hello is accepted for another if and only if the digest does not tell the two apart |
| FakeTlsSocket.ModeSwitch | apps/tg-gateway/src/mtprotoFakeTls.ts:184-224 | of a genuine response the handshake consumes exactly three records, and the application stream is exactly the payloads of the later application records; for a hello with another random field the same bytes are refused |
| FakeTlsSocket.HandshakeConsumed | apps/tg-gateway/src/mtprotoFakeTls.ts:262-265 | a response that is accepted is three whole records of the right types, and the rest follows them to the byte |
| FakeTlsSocket.FakeTlsNetSockets.IngestAppRecords | apps/tg-gateway/src/mtprotoFakeTls.ts:243-253 | the loop appends what the deframer delivers and holds what it holds |
| FakeTlsSocket.FakeTlsNetSockets.OnData | apps/tg-gateway/src/mtprotoFakeTls.ts:208-215 | raw bytes are appended before the switch and deframed after it; waiting readers are woken |
| FakeTlsSocket.FakeTlsNetSockets.Deliver | apps/tg-gateway/src/mtprotoFakeTls.ts:208-215 | an arriving chunk neither loses nor doubles anything that is still to be read |
| FakeTlsSocket.FakeTlsNetSockets.OnClose | apps/tg-gateway/src/mtprotoFakeTls.ts:200-207 | an error or a close at any time; what is unread is not touched, and never read |
| FakeTlsSocket.FakeTlsNetSockets.AwaitCanRead | apps/tg-gateway/src/mtprotoFakeTls.ts:151-154 | any number of chunks may arrive while a reader waits, or the connection break; what is still to be read stays the same |
| FakeTlsSocket.FakeTlsNetSockets.Read | apps/tg-gateway/src/mtprotoFakeTls.ts:151-163 | at most n bytes are taken off the front of what is to be read; an error is a closed socket |
| FakeTlsSocket.FakeTlsNetSockets.ReadExactly | apps/tg-gateway/src/mtprotoFakeTls.ts:140-149 | it gives the next n bytes; it fails exactly when n bytes will never come, or at a break, and then loses fewer than n |
| FakeTlsSocket.FakeTlsNetSockets.ReadTlsRecord | apps/tg-gateway/src/mtprotoFakeTls.ts:276-284 | the next record, or a wrong type, or the end of the stream, whatever the chunking |
| FakeTlsSocket.FakeTlsNetSockets.Write | apps/tg-gateway/src/mtprotoFakeTls.ts:226-229 | wrapped in application mode, raw before, refused when closed |
| FakeTlsSocket.FakeTlsNetSockets.ReadResponse | apps/tg-gateway/src/mtprotoFakeTls.ts:262-265 | the three records off the stream, in any chunking |
| FakeTlsSocket.FakeTlsNetSockets.VerifyResponse | apps/tg-gateway/src/mtprotoFakeTls.ts:265-272 | accepts if and only if the response has a whole random field and a proxy with the secret made it for this hello |
| FakeTlsSocket.FakeTlsNetSockets.Handshake | apps/tg-gateway/src/mtprotoFakeTls.ts:257-274 | the outcome is a function of the peer's bytes, the hello's random field and the secret; the hello goes out first, the change-cipher record only on success |
| FakeTlsSocket.FakeTlsNetSockets.EnterAppMode | apps/tg-gateway/src/mtprotoFakeTls.ts:216-222 | what the handshake left unread goes through the deframer, behind any held tail |
| FakeTlsSocket.FakeTlsNetSockets.Connect | apps/tg-gateway/src/mtprotoFakeTls.ts:184-224 | the whole of connect for any chunking of the peer's bytes, with the tail that is not reset |
| FakeTlsSocket.ReconnectNeedsEmptyHold | apps/tg-gateway/src/mtprotoFakeTls.ts:184-190 | a reconnect delivers every peer's stream as a fresh object would, if and only if no tail is held |
| PaddedIntermediate.PacketRoundTrip | apps/tg-gateway/src/mtprotoFakeTls.ts:296-314 | a packet comes back, with the stream after it, if and only if it is whole words and within 16 MiB with its padding |
| PaddedIntermediate.PacketsRoundTrip | apps/tg-gateway/src/mtprotoFakeTls.ts:296-314 | so do k packets in a row |
| PaddedIntermediate.TransportRoundTrip | apps/tg-gateway/src/mtprotoFakeTls.ts:107-315 | packets with any padding, any cut into writes and any cut into chunks come out as they went in, with nothing left over |
| PaddedIntermediate.ReadPacket | apps/tg-gateway/src/mtprotoFakeTls.ts:304-314 | the next packet of the stream, or its bad length, or the end, under any arrival of chunks, unless the connection breaks |
| PaddedIntermediate.ReadPackets | apps/tg-gateway/src/mtprotoFakeTls.ts:304-314 | that many packets and the stream after them, or, at a break, the first of them |
| PaddedIntermediate.SendAndReceive | apps/tg-gateway/src/mtprotoFakeTls.ts:107-315 | the round trip on two live sockets, leaving `stream` and `rawHold` empty; after a break, what came is a prefix |
| ClientHello.ExtensionsRoundTrip | apps/tg-gateway/src/mtprotoFakeTls.ts:35-40 | any extensions that fit their length fields are parsed back |
| ClientHello.SniRoundTrip | apps/tg-gateway/src/mtprotoFakeTls.ts:28-33 | the three nested lengths of the server name agree for every domain that fits |
| ClientHello.KeyShareRoundTrip | apps/tg-gateway/src/mtprotoFakeTls.ts:50-52 | the public key comes back out of the key share under the group x25519, both its lengths agreeing (section 4.2.8 of RFC 8446) |
| ClientHello.HelloOffers | apps/tg-gateway/src/mtprotoFakeTls.ts:43-93 | a server that parses the hello finds the domain and the public key |
| ClientHello.HelloWellFormed | apps/tg-gateway/src/mtprotoFakeTls.ts:43-93 | the strict parser consumes the hello to the last byte and finds the domain; the length is 517 or the unpadded length plus 4 |
| ClientHello.XorCancels | apps/tg-gateway/src/mtprotoFakeTls.ts:99-102 | exclusive or undoes itself |
| ClientHello.RandomField | apps/tg-gateway/src/mtprotoFakeTls.ts:95-103 | a hello differs from its blank one in bytes 11 to 42 only |
| ClientHello.ServerReadsClock | apps/tg-gateway/src/mtprotoFakeTls.ts:95-103 | zeroing the field and recomputing the digest gives 28 equal bytes and the little-endian clock |
| ClientHello.StampRandom | apps/tg-gateway/src/mtprotoFakeTls.ts:98-103 | the in-place stamping of digest and clock changes the random field alone |
| ClientHello.BuildFakeTlsClientHello | apps/tg-gateway/src/mtprotoFakeTls.ts:43-105 | the hello that is built parses, offers that domain and that key, has that length and carries that clock; it fails exactly for a domain that overflows the record length |
| Instants.CountMeans | apps/tg-gateway/src/antiBan.ts:18-26 | counting in an interval is the number of places with such a time |
| SlidingWindow.RateLimiter.RateLimitOk | apps/tg-gateway/src/antiBan.ts:18-26 | accepts if and only if fewer than the limit of all accepts ever lie in the last 60 000 ms |
| SlidingWindow.GovernedBound | apps/tg-gateway/src/antiBan.ts:18-26 | if each accept saw fewer than the limit behind it, no closed minute anywhere holds more |
| SlidingWindow.SlidingBound | apps/tg-gateway/src/antiBan.ts:18-26 | in every run, no closed 60 000 ms interval holds more than the limit |
| FixedWindow.Limiter.ConsumeRateLimit | apps/api/src/security.ts:43-58 | the bucket, the verdict and the Retry-After of every call, and at most 2·max per window length kept as an invariant |
| FixedWindow.RequestKeeps | apps/api/src/security.ts:43-58 | a request keeps, for every key at once, the account of its window and the bound of 2·max per window length |
| FixedWindow.KeysIndependent | apps/api/src/security.ts:43-58 | a key's bucket depends on its own requests alone |
| FixedWindow.FractionsRound | apps/api/src/security.ts:8-58 | fractional settings give every test and every Retry-After as the whole ones they round to |
| FixedWindow.RetryAfterSuffices | apps/api/src/security.ts:54-56 | a limited client that waits is let in exactly from the reset on, unless the limit is below one, and the advertised wait is enough (section 4 of RFC 6585) |
| FixedWindow.FixedWindowBound | apps/api/src/security.ts:43-58 | in every run, any interval of one window length holds at most 2·max admitted requests of a key |
| FixedWindow.FullWindow | apps/api/src/security.ts:43-58 | a window that opens admits a full maximum at once |
| FixedWindow.FixedWindowBoundReached | apps/api/src/security.ts:43-58 | with every setting and from every instant on, that bound is reached |
| Stages.LaterIsHeld | services/orchestrator/app.py:143-164 | of any two stages, in the order of the funnel, the later is held; a manager's turn keeps the stage, and two in a row start anew |
| Stages.HeldAtHighest | services/orchestrator/app.py:155-164 | without terminal proposals the held stage is the highest rank seen |
| Stages.HeldRankNeverFalls | services/orchestrator/app.py:155-164 | its rank never falls along such proposals, whatever the first status |
| Stages.TerminalLetsFall | services/orchestrator/app.py:159-160 | a terminal proposal, and what follows it, is not held: from any status any stage is reached in two |
| Stages.LateStaysLate | services/agents/lifecycle.py:50-87 | from contract or execution no wording moves a deal back without a hint |
| Stages.WordsMoveExactly | services/agents/lifecycle.py:50-87 | by which words alone, and by no others, a deal goes on to contract or to execution |
| Stages.ExecutionFallsBackExactly | services/agents/lifecycle.py:204-223 | execution falls back if and only if an acceptance is hinted and the offer is priced and unguarded |
| DealStore.TurnKeepsRouting | services/orchestrator/app.py:428-459 | routing survives a turn that writes back the metadata it read, as long as it leaves the deal open and live |
| DealStore.ReopenExactly | apps/api/src/routes/deals.ts:177-228 | reopening keeps the flags single if and only if the deal is unflagged or its chat has no other flagged deal |
| DealStore.LookupSettles | services/common/db.py:136-180 | a deal that the lookup gives is the only one the next call can give |
| DealStore.PinnedSettles | services/common/db.py:183-236 | so is the only flagged deal of a chat, even when all its open deals rest |
| DealStore.PinKeepsUnique | services/common/db.py:196-224 | pinning keeps at most one flagged open deal per chat |
| DealStore.PinRoutes | services/common/db.py:104-133 | linking and pinning the deal settles the chat on it and changes no other card |
| DealStore.FreshKeepsRouting | services/common/db.py:335-342 | a second order without a pin leaves the chat where it was |
| DealStore.Store.LookupActiveDeal | services/common/db.py:136-180 | the newest flagged live deal, else the client's own live pin, else none |
| DealStore.Store.SetActiveDeal | services/common/db.py:183-236 | flags of the chat's other open deals are cleared, this one's and the client's pin set |
| DealStore.ForemostMeans | services/common/db.py:87-104 | the deal that is preferred is live if any is, then flagged, then the one with the newest message, then the most recently updated |
| DealStore.Store.FindForemost | services/common/db.py:87-104 | a first open deal by rest, flag, newest message and update; a resting one only if all rest |
| DealStore.Store.GetOrCreateDeal | services/common/db.py:70-133 | a deal is created if and only if all of the chat's are closed; otherwise one that routing may give, linked to the chat's client; afterwards the next call can only give the same |
| DealStore.Store.CreateFreshDeal | services/common/db.py:289-342 | the inserted row, and that routing does not move to it |
| DealStore.Store.ClientTurn | services/orchestrator/app.py:428-459 | the message and the written-back row; flags stay single unless a closed deal is reopened |
| DealStore.Store.StaffPatch | apps/api/src/routes/deals.ts:177-228 | the patched row; flags stay single unless a closed deal is reopened |
| DealStore.Store.RouteTwice | services/common/db.py:70-133 | two calls in a row give the same deal |
| DealStore.Store.RouteAroundTurn | services/orchestrator/app.py:304-459 | so do a call, the turn and the next call, if the turn leaves the deal live |
| DealStore.ReceiveKeeps | services/orchestrator/app.py:304-459 | a message and its turn keep flags single, and keep the chat on the deal while it is live, whichever row is written back |
| DealStore.PinMoves | services/common/db.py:183-236 | pinning a live deal moves its chat there |
| DealStore.DirectedKeeps | services/orchestrator/app.py:287-300 | a message that names a live deal moves its chat there, if the flag or the client's pin outlasts the turn |
| DealStore.BindKeepsRouting | services/common/db.py:1140-1154 | linking a client to a deal moves no chat |
| DealStore.Store.TakeMessage | services/orchestrator/app.py:287-459 | a routed message and its turn, on resting and on live deals |
| DealStore.OrderKeeps | services/orchestrator/app.py:345-420 | a second order, with or without a client that is linked late, leaves the chat on its deal |
| DealStore.Store.TakeOrder | services/orchestrator/app.py:345-459 | a message that opens a second order: a client found late is linked to the first deal and passed on, the turn is on the fresh deal, and the chat stays on the first |
| DealStore.Serve | services/common/db.py:70-236 | over any run in which closed deals stay closed, at most one open deal of a chat is flagged, and each routed message leaves its chat settled on its deal |
| DealStore.ChatStays | services/common/db.py:70-236 | in such a run, messages of a chat one after another all go to one deal while turns leave it live |
| DealStore.ReopenedDealsCollide | apps/api/src/routes/deals.ts:177-228 | a reopened deal and its successor can both be flagged |
| DealTurn.StripInvented | services/orchestrator/app.py:129-140 | exactly the lines that look like a price and do not speak of an invoice are dropped |
| DealTurn.StripAppend | services/orchestrator/app.py:129-140 | line by line and in order: what is kept of two lists is what is kept of each |
| DealTurn.StripInventedPrices | services/orchestrator/app.py:129-140 | the loop keeps what the specification keeps |
| DealTurn.OpeningIsSober | services/orchestrator/app.py:461-476 | the opening of a turn invents no price, because the concierge's lines were stripped |
| DealTurn.OpeningSays | services/orchestrator/app.py:461-476 | which of the concierge's lines and of the restrictions' texts reach the client, and that no other does |
| DealTurn.PendingRowIs | services/common/db.py:562-571 | the pending row of a reason is found if there is one |
| DealTurn.MergeKeepsNews | services/orchestrator/app.py:167-178 | merging a quote's escalation never announces a row that is not of this turn, nor a duplicate |
| DealTurn.MergeAnnounces | services/orchestrator/app.py:167-178 | what the quote has to announce is announced; a duplicate, or nothing, takes no announcement away |
| DealTurn.PriceStatedExactly | services/agents/lifecycle.py:184-350 | the lifecycle states a price if and only if an unguarded offer is accepted or a plain question is reminded of it |
| DealTurn.LifecycleTells | services/agents/lifecycle.py:184-350 | a client whose deal goes on is told to what; other requests are answered, and what was written to a plain question is kept |
| DealTurn.LifecycleCleared | services/agents/lifecycle.py:184-350 | a price it states is of an offer that is not paused, hence released; it invents none |
| DealTurn.KpHoldGuardsAcceptanceOnly | services/agents/lifecycle.py:204-213 | with the pause off, the hold stops an acceptance but not the reminder |
| DealTurn.DealDesk.CreateEscalation | services/common/db.py:552-598 | a pending row of the reason is a duplicate and changes nothing; otherwise a row is added and the deal goes to the manager, its status kept as the previous one; one pending row per reason is kept |
| DealTurn.DealDesk.RunOpsRfq | services/agents/quote_pipeline.py:101-164 | the deal goes to the manager, no price is said |
| DealTurn.DealDesk.EscalatePricing | services/agents/quote_pipeline.py:695-740 | every condition that needs a manager has its pending row; the one announced is the last of them, and of this turn; no approval of an offer is raised by it |
| DealTurn.DealDesk.AskSuppliers | services/agents/quote_pipeline.py:317-530 | the RFQ goes out, is held back, or waits for staff; nothing but status, escalation and that mark changes |
| DealTurn.DealDesk.CheckCompliance | services/agents/quote_pipeline.py:199-269 | a violation found for goods that need customs has its pending escalation, and the client is told of a hold; the deal goes on as read before it |
| DealTurn.DealDesk.Prepare | services/agents/quote_pipeline.py:199-530 | a compliance stop ends the run with the offer untouched |
| DealTurn.DealDesk.SavePriced | services/agents/quote_pipeline.py:807-964 | with approval required the price is held and not said, unless saving breaks off |
| DealTurn.DealDesk.HoldForApproval | services/agents/quote_pipeline.py:912-950 | paused, escalated, the messages with the price kept back |
| DealTurn.DealDesk.Conclude | services/agents/quote_pipeline.py:541-964 | pending without a price, or priced |
| DealTurn.DealDesk.RunFreightQuote | services/agents/quote_pipeline.py:167-964 | the three ends of a quote run; with approval required none of them says a price, and a price is held with its pending escalation |
| DealTurn.DealDesk.ApplyLifecycle | services/agents/lifecycle.py:184-350 | status and answers for every intent |
| DealTurn.DealDesk.BlockTurn | services/orchestrator/app.py:497-517 | a first hard block goes to the manager, a duplicate one back to intake |
| DealTurn.DealDesk.QuoteInTurn | services/orchestrator/app.py:544-583 | a quote within a turn, merged; with approval required its deal is held with the offer's own price kept back, and its answers carry no price |
| DealTurn.DealDesk.Follow | services/orchestrator/app.py:585-620 | the lifecycle and the recalculation it may call for |
| DealTurn.RecallsIs | services/agents/lifecycle.py:50-64 | when the words of a message alone ask for a recalculation |
| DealTurn.LateTurn | services/orchestrator/app.py:444-620 | a turn in a late stage makes no quote, and without a hint, block or terminal proposal stays in a late stage, execution in execution |
| DealTurn.DealDesk.QuoteIfDue | services/orchestrator/app.py:519-583 | a quote is made if and only if one is due, and its price, or that it is pending, is the offer then |
| DealTurn.DealDesk.OpenTurn | services/orchestrator/app.py:518-620 | without a quote only the intent moves the deal; with one the offer is its outcome |
| DealTurn.DealDesk.PlainTurn | services/orchestrator/app.py:428-634 | the answers of a turn are cleared, a second duplicate block sends the deal to intake, the whole row and all answers where no quote is made, the offer where one is |
| DealTurn.DealDesk.Announce | apps/tg-gateway/src/index.ts:569-598 | an alert goes out exactly for an escalation that is no duplicate, and never twice for a row |
| DealTurn.DealDesk.Send | apps/tg-gateway/src/index.ts:549-598 | the answers go out and staff are alerted of what is news; of a turn that failed neither, only a fixed text |
| DealTurn.DealDesk.ClientTurn | services/orchestrator/app.py:242-659 | nothing is said while staff have the deal; no price is said, and no text that looks like one, before the release of a priced offer; alerts are about rows of this turn; a grey scheme is refused and escalated; the whole row and all answers of a turn without a quote, the offer after one with a quote; staff are alerted of a new grey scheme, block or unread link, and of a price that a due quote came to and that is held; a late stage stays late without a hint, block or terminal proposal |
| DealTurn.DealDesk.ApproveKp | apps/api/src/routes/deals.ts:251-333 | the messages kept back go out and the deal is released, or it goes on to contract; a price that goes out is the present offer's if and only if that is not pending again |
| DealTurn.DealDesk.Patch | apps/api/src/routes/deals.ts:177-228 | taking the pause off releases the offer |
| DealTurn.DealDesk.FlushRfqPreflight | services/common/queues.py:560-608 | a held RFQ is sent, which takes the pause off |
| DealTurn.DealDesk.ApplyOpsHint | services/orchestrator/app.py:683-767 | the hint and the run it asks for keep the hold |
| DealTurn.DealDesk.ApiQuoteFallback | services/agents/quote_pipeline.py:967-1075 | a priced deal is left alone, any other is quoted and its price held, and nothing goes to the client |
| DealTurn.DealDesk.Decide | apps/api/src/routes/escalations.ts:74-160 | the decided row is closed, the deal resumes, stays open for a rejected RFQ or is cancelled, and its hold stays unless an approved RFQ is sent |
| DealTurn.DealDesk.EscalateByHand | apps/api/src/routes/escalations.ts:8-60 | a row is added whatever is pending; one pending row per reason is kept only if none of the reason was pending |
| DealTurn.SecondPending | apps/api/src/routes/escalations.ts:8-60 | exactly then |
| DealTurn.EscalateAndDecide | apps/api/src/routes/escalations.ts:8-160 | an escalation and its approval, or an RFQ's rejection, leave the deal at the status it had; another rejection cancels it |
| DealTurn.Serve | services/orchestrator/app.py:259-659 | over any series of messages, staff steps, decisions and runs: no price, and for a priced deal no text that looks like one, before its release; the price kept back is the offer's unless that is pending; no invented price at all; one pending escalation per reason unless put in by hand; one alert per row |
| DealTurn.BrokenRunLeaks | services/agents/quote_pipeline.py:807-939 | after a run that fails between its two writes, the next plain question is answered with the price that nobody released |
| DealTurn.StalePriceReleased | apps/api/src/routes/deals.ts:264-299 | so after a run without quotes it is the old price |
| Retry.RowWrittenOnce | services/common/db.py:740-758 | in every interleaving the row is written at most once and every cached answer is that row's |
| Retry.NothingAfterTheStore | services/orchestrator/app.py:283-285 | within the TTL, an attempt that begins after the store queues nothing |
| Retry.ExpiredForGood | services/common/db.py:749-758 | an expired row is never replaced, so every later attempt is processed anew |
| Retry.RepliesQueuedOnce | apps/tg-gateway/src/index.ts:465-568 | for attempts one after another within the TTL, crashes included, replies of a stored result are queued by one attempt, each position at most once, with the row's texts |
| Retry.LostForGood | apps/tg-gateway/src/index.ts:513-519 | what the writer had not queued when it ended is never queued |
| Retry.OverlapQueuesExactly | services/common/db.py:740-758 | with a valid row there, an attempt can still queue a stored reply within the TTL if and only if it is in flight |
| Retry.OverlapQueuesTwice | apps/tg-gateway/src/index.ts:450-457 | so any two overlapping attempts can both queue |
| Retry.OrchestrateWorker.IdempotentGet | services/common/db.py:740-746 | the row's result until it expires |
| Retry.OrchestrateWorker.IdempotentSet | services/common/db.py:749-758 | inserts for 3600 seconds, or does nothing |
| Retry.OrchestrateWorker.BeginAttempt | services/orchestrator/app.py:283-285 | skipped exactly while the row is valid |
| Retry.OrchestrateWorker.Answer | services/orchestrator/app.py:242-256 | a result is stored, a failure answers without storing |
| Retry.OrchestrateWorker.SendReplies | apps/tg-gateway/src/index.ts:549-568 | each reply is queued in order unless its job id is taken |
| Retry.OrchestrateWorker.ProcessOrchestrateJob | apps/tg-gateway/src/index.ts:465-568 | one whole attempt, as a run of the state machine the theorems are about |
| MailIngest.CountOfAppend | scripts/mail-archive-ingest.ts:496-509 | a row counts once for its own thread |
| MailIngest.CountOfMeans | scripts/mail-archive-ingest.ts:496-509 | the count is the number of rows filed under the thread |
| MailIngest.BumpMatches | scripts/mail-archive-ingest.ts:790-844 | look-up without counting, insert and counting up keep every thread's count equal to its rows |
| MailIngest.ThreadClientStays | scripts/mail-archive-ingest.ts:496-521 | a thread's known client stays, a missing one is filled in, and other threads are not touched |
| MailIngest.UnknownFits | scripts/mail-archive-ingest.ts:699-724 | a message the look-up does not know conflicts with no row and shares no id, hash or place with one |
| MailIngest.KnownStays | scripts/mail-archive-ingest.ts:725-758 | a known message stays known |
| MailIngest.RoleSettles | scripts/mail-archive-ingest.ts:725-737 | read again, a client's or supplier's message is never taken for a newsletter or a provider's, any may turn out internal, and a further reading changes nothing |
| MailIngest.LookupOrder | scripts/mail-archive-ingest.ts:385-444 | the look-ups are tried in order: cache, address, primary address, phone, INN |
| MailIngest.SettledGrows | scripts/mail-archive-ingest.ts:599-758 | loading a file keeps the earlier ones known and stored |
| MailIngest.Ingest.CreateClient | scripts/mail-archive-ingest.ts:446-486 | one client more, with every identity of the card that nobody else has |
| MailIngest.Ingest.ResolveOrCreateClient | scripts/mail-archive-ingest.ts:377-486 | cache, address, primary address, phone, INN, insert, in that order; an own address has no client; the cache only grows |
| MailIngest.Ingest.UpsertThread | scripts/mail-archive-ingest.ts:488-521 | the count goes up only when asked, a known client stays |
| MailIngest.Ingest.SaveAttachments | scripts/mail-archive-ingest.ts:546-597 | each content is stored once, under the first message; a later message with it fills in a missing client and nothing else |
| MailIngest.Ingest.FindExisting | scripts/mail-archive-ingest.ts:699-724 | found if and only if a row has its id, content hash or place; by its id first |
| MailIngest.Ingest.InsertMessage | scripts/mail-archive-ingest.ts:801-836 | inserted unless id or place conflict |
| MailIngest.Ingest.ClientOf | scripts/mail-archive-ingest.ts:760-783 | only client messages have one, and it is the cached one of the address |
| MailIngest.Ingest.Backfill | scripts/mail-archive-ingest.ts:725-758 | a known message changes its row's role and fills attachments, and counts as skipped |
| MailIngest.Ingest.AddRequest | scripts/mail-archive-ingest.ts:855-979 | a calculation request if the message is one, and each of its facts, in order and counted |
| MailIngest.Ingest.AddMessage | scripts/mail-archive-ingest.ts:760-979 | one row, one count, its request and its facts; counters match the tables |
| MailIngest.Ingest.IngestFile | scripts/mail-archive-ingest.ts:599-979 | afterwards the message is known; if it was before, nothing is added |
| MailIngest.Ingest.Run | scripts/mail-archive-ingest.ts:599-979 | every file is counted once as new or skipped, counts match rows, no two rows share an id or hash, and an external address has one client within the run |
| MailIngest.Ingest.RunTwice | scripts/mail-archive-ingest.ts:599-979 | a second run over the same files adds nothing to any table |
| MailIngest.LoadArchive | scripts/mail-archive-ingest.ts:599-979 | from empty tables: after one run the counters are the sizes of the tables and every thread's count is that of its rows, and a second run adds nothing |
| MailIngest.AddressKeptExactly | scripts/mail-archive-ingest.ts:394-444 | an address keeps its client in a later run if and only if the tables knew it, or knew neither the phone nor the INN of its first card |
| MailIngest.AddressForgotten | scripts/mail-archive-ingest.ts:419-432 | across runs an address found by phone can get another client |
| Scrub.FirstGivesWay | services/agents/procurement.py:104-108 | the first occurrence gives way to the replacement, what is before it stays, and the rest is scanned from behind it |
| Scrub.PassMeans | services/agents/procurement.py:109-132 | a match loses what is dropped and keeps its own front part |
| Scrub.PassKeeps | services/agents/procurement.py:109-132 | a pass, whatever it matches, cannot put a scrubbable secret together again |
| Scrub.LiteralKeeps | services/agents/procurement.py:104-108 | nor can the replacement of another literal |
| Scrub.LiteralRemoves | services/agents/procurement.py:104-108 | replacing a secret leaves no occurrence in any case |
| Scrub.SecretsRemove | services/agents/procurement.py:104-108 | in whatever place of the list it stands |
| Scrub.ScrubbingLasts | services/agents/procurement.py:81-132 | after all passes over the route no scrubbable secret occurs in any case |
| Scrub.NumberRemoved | services/agents/procurement.py:124-129 | after all passes the client's tax number does not occur |
| Scrub.LeaksRemoved | services/agents/procurement.py:109-132 | what the label pattern or a leak pattern removes does not come back |
| Scrub.LastingExactly | services/agents/procurement.py:81-132 | for a secret of three characters or more without '[', ']' and ':', this holds if and only if no placeholder spells it |
| Scrub.BodyOverrideLasts | services/agents/procurement.py:138-143 | the same for the staff's body, trimmed and cut |
| Scrub.CargoLasts | services/agents/procurement.py:123-135 | after the passes over the cargo text, the factory's included, a secret that is safe from its replacement does not occur in any case |
| Scrub.CargoLastingExactly | services/agents/procurement.py:123-135 | for a secret that the route is scrubbed of, this holds for every text and every pattern whose matches begin with the factory's words, if and only if the factory's replacement neither spells the secret nor can end it |
| Scrub.SanitizeCargo | services/agents/procurement.py:123-135 | so does the cargo field of secrets and tax number, with the factory's pass unless the factory may be named |
| Scrub.FactoryPassRecreates | services/agents/procurement.py:133-134 | so a name that ends like the factory's word comes back |
| Scrub.PlantGivesWay | services/agents/procurement.py:133-134 | on the text "АО plant:X-12", for one |
| Scrub.ScrubPartyNames | services/agents/procurement.py:81-110 | the reassigned text ends free of every scrubbable secret |
| Scrub.SanitizeRoute | services/agents/procurement.py:124-132 | the route field ends free of every scrubbable secret, of the client's tax number, and of what a leak pattern removes |
| Pricing.PriceOffer | services/agents/finance.py:85-157 | the routine's price, margin and approval flag, and its steps |
| Pricing.AmountsMean | services/agents/finance.py:96-118 | target, floor and discount are a markup on the cost, a margin on the price and a share of the price |
| Pricing.AskIsClamped | services/agents/finance.py:109 | an ask below nothing counts as none, and one above the maximum and five as that |
| Pricing.OfferMeans | services/agents/finance.py:107-128 | the margin reported is the one on the price where a discount was asked for; a manager must approve if and only if the floor was applied, the ask is above the maximum or the profit too low |
| Pricing.FloorOutOfReach | services/agents/finance.py:114-118 | with a floor of a hundred percent and more the offer is at cost |
| Pricing.PriceIsClosedForm | services/agents/finance.py:96-118 | the price is the discounted target or the floor price, whichever is higher |
| Pricing.ClosedFormExactly | services/agents/finance.py:96-118 | for every ask, if and only if (100+target)(100−floor) ≥ 10 000 |
| Pricing.NeverRisesExactly | services/agents/finance.py:96-118 | a larger ask never raises the price, if and only if the same |
| Pricing.MarginHolds | services/agents/finance.py:114-118 | the margin on the price is never below the floor where that or a discount holds |
| Pricing.ValidateEconomics | services/agents/finance.py:160-204 | each issue if and only if its condition, a human if and only if an issue |
| Pricing.BreachOnlySeenByCheck | services/agents/quote_pipeline.py:668-740 | without an ask pricing never sees a breach; the check does exactly when the target misses the floor by more than its tolerance |
| Pricing.StepsAreAffordable | services/agents/finance.py:130-143 | the steps are exactly the candidates that keep floor and least profit |
| Pricing.DefaultsCover | services/agents/finance.py:91-94 | the default policy meets the inequality |
| Ranking.RoundEvenMeans | services/agents/finance.py:43-57 | amounts are rounded to the nearest, ties to the even one |
| Ranking.TaxMeans | services/agents/finance.py:20-56 | VAT is added where the price is without it; a stated mode goes before a note, and a note before the corridor |
| Ranking.SavedExactly | services/common/db.py:611-666 | a quote comes back from the table as it was if and only if its price is in whole hundredths; saving again changes nothing more |
| Ranking.RenormalisingIsStable | services/agents/finance.py:65-82 | a rouble quote saved and read again keeps its tax mode through two renormalisations, and its effective cost unless it excludes VAT and the percentage was changed |
| Ranking.RoubleKeptMeans | services/agents/finance.py:65-82 | a rouble quote that is read again costs what the later percentage makes of it |
| Ranking.RoubleKeptExactly | services/agents/finance.py:65-82 | its effective cost is kept for every price in whole kopecks if and only if it is not without VAT or the percentage is the same |
| Ranking.RoubleQuoteMoves | services/agents/finance.py:65-82 | so 100 roubles without VAT at 20 and then at 22 percent do not keep it |
| Ranking.CostKeptMeans | services/agents/quote_pipeline.py:311-537 | a foreign quote that is read again costs what the later rate and percentage make of it |
| Ranking.ForeignKeptExactly | services/agents/quote_pipeline.py:311-537 | its effective cost is kept for every whole-hundredth price if and only if the later rate is the same |
| Ranking.ForeignQuoteMoves | services/agents/quote_pipeline.py:311-537 | so 100 dollars at 90 and then at 91 roubles do not keep it |
| Ranking.CriteriaMean | services/agents/rates.py:80-86 | which of a quote's numbers it is judged by where some are missing or zero |
| Ranking.DominanceKept | services/agents/rates.py:80-93 | no worse in cost, time, reliability and safety is never scored lower |
| Ranking.CheaperScoresHigher | services/agents/rates.py:81-93 | all else equal, a lower cost scores strictly higher, and by how much |
| Ranking.FasterScoresHigher | services/agents/rates.py:82-93 | so does a shorter time |
| Ranking.TrustIsWorth | services/agents/rates.py:83-93 | a point of reliability is worth a quarter, one of safety three twentieths |
| Ranking.ScoredHigherExactly | services/agents/rates.py:88-94 | the four-decimal score is higher if and only if a rounding boundary lies between, and surely for a difference above 0.0001 |
| Ranking.SortMeaning | services/agents/rates.py:95 | the order is descending, a rearrangement, and stable |
| Ranking.CompareQuotes | services/agents/rates.py:75-96 | the ranking is a sorted stable permutation of exactly the quotes without an error and below the price that stands for none |
| Budget.OvershootBound | services/common/gpt_budget.py:138-169 | in every interleaving of single checks and writes, a day or month never reaches its cap plus one call's cost for each worker, rollovers included |
| Budget.DayRefusedExactly | services/common/gpt_budget.py:138-150 | a check is refused for its day if and only if the day's spend has reached the cap that is set |
| Budget.MonthRefusedExactly | services/common/gpt_budget.py:138-150 | and for its month likewise |
| Budget.LoneWorkerGetsExactly | services/common/gpt_budget.py:138-169 | a lone worker gets its next call of a day if and only if what n calls have cost is below the cap |
| Budget.MonthAccount | services/common/gpt_budget.py:153-169 | in every interleaving, a month with what is outstanding for it is the sum of its days but for the costs split across its ends |
| Budget.MonthIsSumOfDays | services/common/gpt_budget.py:167-168 | with no cost split, only what is still outstanding is missing from a month |
| Budget.MonthsAgreeExactly | services/common/gpt_budget.py:167-168 | when all is recorded, every month is the sum of its days if and only if no positive cost was split across a month's end |
| Budget.SplitKeysDrift | services/common/gpt_budget.py:53-60 | a call whose two records fall in different months is split, whatever its cost |
| Budget.Worker.AssertWithinBudget | services/common/gpt_budget.py:138-150 | passes if and only if each cap that is set is not reached when it is looked at, whatever happens between the two looks |
| Budget.Worker.RecordUsage | services/common/gpt_budget.py:153-169 | a positive cost is added to the day and then to the month, as steps of the run the theorems are about |
| Budget.FirstAnswerIs | services/common/llm.py:306-365 | the answer taken is the first usable one, everything before it having failed |
| Budget.FirstTextIs | services/common/llm.py:250-303 | so is the text |
| Budget.InOrderAt | services/common/llm.py:306-365 | each candidate is tried structured and then plain |
| Budget.Worker.ChatParsed | services/common/llm.py:306-365 | one check, then the first usable answer in order, and only its cost recorded, as a run of the machine |
| Budget.Worker.ChatJson | services/common/llm.py:250-303 | the same with the first text that comes, JSON object or not |

## Left out

- The network, IMAP, Telegram, SMTP, Postgres and Redis themselves: chunks, tables and queues are values, and faults
  are explicit steps. A failure to connect the TCP socket is not modelled, and one flag says of a connection whether
  it may break.
- FakeTlsSocket.FakeTlsNetSockets.AwaitCanRead: the promise is a flag, and several readers at once are not modelled.
- The obfuscation layer inside GramJS, HMAC and random bytes: HMAC is any function to 32 bytes, random bytes are
  inputs.
- ClientHello.HelloWellFormed: extension bodies other than the server name and the key share are kept opaque, so also
  the inner length that the code writes into the signature algorithms.
- SlidingWindow.RateLimiter.RateLimitOk: a limit that is not a number (the environment value does not parse) is not
  modelled; a fractional one acts as the next whole one (`FractionalLimit`).
- FixedWindow.Limiter.ConsumeRateLimit: the reading of the key off the request is not modelled, keys are given.
- DealStore.Store.GetOrCreateDeal: pins that fail and are ignored are left out, as are the voice and e-mail channels,
  which have no pin. Two calls at once are not modelled.
- DealStore.Store.SetActiveDeal: the chat is the deal's own; a caller that names another chat is not modelled.
- DealStore.Serve: steps come one after another, each at its own time, and metadata is patched by no one but the
  turns.
- DealTurn.DealDesk.ClientTurn: one deal at a time, one step after another. The split into a second order is in
  DealStore; texts, cargo and routes are inputs. Two turns of one deal at once are not modelled.
- DealTurn.DealDesk.Patch: staff may also write an offer of their own; the model lets them change status, pause and
  takeover.
- DealTurn.DealDesk.ApproveKp: a deal without a Telegram chat gets no message, the model sends it.
- DealTurn.DealDesk.RunFreightQuote: a price of zero, which the code treats as no price, is left out; costs, customs
  and message texts are inputs. Failures elsewhere than between the two writes of the offer write nothing further and
  are not modelled.
- DealTurn.DealDesk.ApplyLifecycle: the texts of contract, payment and tracking are fixed names, and the record of
  payment and shipment is left out.
- Retry.OrchestrateWorker.ProcessOrchestrateJob: attachments and the escalation alert are left out; whether a job id
  was already taken is an input, and the building of job ids is not modelled.
- MailIngest.Ingest.Run: reading and parsing of files, role classification, phone and INN extraction are inputs; dry
  runs, service-provider counters, the times of threads and the names of clients are left out, and so are files that
  fail.
- Scrub.CargoLastingExactly: how characters fold is left open, but for two facts: a bracket or colon has no other
  case, and no letter of one alphabet is another case of a letter of the other.
- Scrub.SanitizeRoute: the patterns may match anything; secrets are given already stripped. Keys removed from the
  payload and the academy fields are left out.
- Pricing.PriceOffer: prices are not rounded to kopecks, so the properties are about the price before rounding.
- Ranking.CompareQuotes: how VAT is read off a note is an input, and amounts are exact decimals.
- Budget.OvershootBound: one store of counters for all workers; the fallback of each process to its own memory when
  Redis fails is left out.
- Intents are read off the text by patterns that are inputs here; the language they match is left out.
- Academy, catalogue, schemes, geography, boot guards, readiness lists, FX, carrier adapters, PDF and Excel parsing,
  the web interface, scripts that report: finite tables or outside data.
