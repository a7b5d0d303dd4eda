# Termwire: a verified model of the payment terminal and its client

Termwire connects a cash register (ECR) to a payment terminal (POS) over a framed binary protocol. This project models
the parts where money and messages can go wrong, and proves what they guarantee:

* **Frames** (`Bytes`, `Crc32`, `Frames`, `FrameLaws`, `FrameValues`). One serializer, a buffer decoder and a stream decoder, performed on
  arrays and on a consuming reader, each proved equal to a function on byte sequences. The CRC-32 register is a real 32-bit
  register; its detection of every burst of at most 32 bits follows from the register step being undoable.
* **The ledger** (`Domain`, `Decimals`, `Tables`, `Ledgers`, `Reports`, `DetailedReports`, `TransactionManagers`). Active
  transactions and a receipt counter in memory; a table of settled rows and the persisted counter in the database. The
  class `TransactionManager` changes them in place and is proved to do what the functions of `Ledgers` say.
* **Interleavings** (`Interleavings`, `InterleavingSteps`, `InterleavingLaws`, `UndoLaws`, `AnswerLaws`,
  `Uninterrupted`). Any number of threads, one
  SQL statement or mutex operation at a time: Complete, Fail and the Z-report hold the mutex, Void and Refund do not. The
  laws hold in every state that any schedule of any operations with any arguments reaches, id reuse and restarts included.
* **Messages** (`Handlers`, `HandlerLaws`, `Runs`, `Retries`). Each handled message as one step, with bank decision, codes, card and clock as
  arbitrary inputs: at most one settlement, coherence of stored responses, and that repeating a request is harmless.
* **Both ends together** (`Clients`, `PaymentFlows`, `PaymentLaws`, `Sessions`, `SessionLaws`, `Connections`). The retry loop of the client,
  the payment flow over it, and the terminal's loop over a byte stream.

A *fresh-id run* is one in which no card insertion uses an id that the table holds already. `CreateTransaction` looks at the
active transactions only, so a settled id can be inserted again; what is stated without this assumption holds for such runs
too.

Where the repository's documentation and code differ, the model follows the code:

* `README.md:100` and `README.md:488` call `message_id` the idempotency key. The handlers use the transaction id and the
  stored response (`pos/handler.go:156`, `pos/handler.go:208`), and `PaymentCompletionRequest` has no such check:
  repeated after approval it is answered 02 (`Retries.RepeatedCompletionIsNotFound`). Nor are duplicates of other requests
  answered alike: a repeated void, refund or card insertion gets an error, and a repeated Z-report gets a success with an
  empty report under the next number, so that the totals of the batch it closed never reach the ECR
  (`Clients.ZReportOverRetries`). `Retries.RetriedReply` says for every request exactly when the repeat is answered as the
  first delivery was; the ledger is the same either way (`Retries.RetrySafety`).
* The state diagram passes through `LOYALTY_CONFIRMATION`. No handler assigns that state, and none checks the state it
  starts from.
* Void and Refund are drawn as alternatives. Refund's UPDATE checks no state, so under interleaving two refunds and a void
  of one row can all succeed (`UndoLaws.RefundsRace`, `UndoLaws.RaceIsReachable`). `UndoLaws.AtMostOneUndoing` says exactly
  when at most one does: when no Refund stores its result over a row that has been voided or refunded since it read it. With
  whole messages as steps that never happens (`Runs.AtMostOneVoidOrRefund`).
* `README.md:48` makes LEN the payload length in 16 bits. Nothing checks that a payload fits it, so a detailed report that marshals to more than 65535 bytes never reaches the client
  (`SessionLaws.OversizedReportIsLost`); `SessionLaws.SessionEndToEnd` says exactly which sessions are read back.
* A payment for an id whose earlier payment was declined is answered as a success while its row stays FAILED
  (`Runs.FailedIdReportedAsPaid`); `Runs.PaymentOfReusedId` says exactly when a payment settles. With two connections the
  same happens to an id never used before, when one handler's decline is stored before the other's Complete
  (`AnswerLaws.SuccessOverFailedRow`); `AnswerLaws.SuccessReplyIsRight` says exactly when a success reply has a settled row.

The bound `LONGEST_RUN` on the length of a run, about 1.8 times 10^19 steps, is where the 64-bit receipt counter could wrap.

## Model

| member | source | states |
|---|---|---|
| FrameValues.ChecksumOfLetterA | protocol/protocol.go:62-71 | the register starts, steps and ends as the IEEE CRC-32 does, on a known value |
| FrameValues.ChecksumOfPing | protocol/protocol.go:62-71 | the checksum of a PING frame's header, most significant byte first |
| FrameValues.WireOfPing | protocol/protocol.go:100-123 | a whole PING frame, byte by byte |
| FrameValues.WireOfFields | protocol/protocol.go:27-38 | every field in its place and byte order, the delimiters, and the codes of the four types |
| Crc32.BurstChangesChecksum | protocol/protocol.go:62-71 | two messages of equal length that differ within 32 consecutive bits have different checksums, whatever surrounds them |
| Crc32.FourByteBurstChangesChecksum | protocol/protocol.go:62-71 | the same for four consecutive bytes |
| Frames.NewFrame | protocol/protocol.go:73-82 | a new frame is valid exactly for the four frame types |
| Frames.CalculateCRC32 | protocol/protocol.go:62-71 | the filled buffer has the checksum over version, type, sequence and payload; LEN and FLAGS are not covered |
| Frames.Serialize | protocol/protocol.go:100-123 | the array written field by field is the wire image |
| Frames.ParseFrame | protocol/protocol.go:125-156 | the buffer decoder's checks, in order, and its fields |
| Frames.ReadFrame | protocol/protocol.go:160-239 | the result, with the kind of error, and the exact number of bytes consumed, in every case; it ends on every finite stream |
| FrameLaws.ParseEncode | protocol/protocol.go:100-156 | parsing a serialized frame gives it back if and only if the payload has at most 65535 bytes |
| FrameLaws.ReadEncode | protocol/protocol.go:160-239 | after noise without STX the stream decoder returns a serialized valid frame, rejects an invalid one, and consumes exactly through ETX |
| FrameLaws.CorruptedPayloadIsRejected | protocol/protocol.go:226-236 | changing any bytes within four consecutive payload bytes of a valid frame on the wire always makes ReadFrame fail |
| FrameLaws.HeaderIsCovered | protocol/protocol.go:48-71 | no valid frame has the payload and checksum of another: version, type and sequence number are covered |
| FrameLaws.CorruptedHeaderIsRejected | protocol/protocol.go:226-236 | changing any of the bytes of version, type and sequence number of a valid frame on the wire always makes ReadFrame fail |
| FrameLaws.DamagedDelimiterIsRejected | protocol/protocol.go:171-224 | a damaged magic or end byte gives its own error, with as many bytes taken as were looked at |
| FrameLaws.CutFrameIsIncomplete | protocol/protocol.go:160-239 | a frame cut short at any byte gives EOF at the start of a field and ErrUnexpectedEOF inside one |
| FrameLaws.OnlyKnownFramesAreRead | protocol/protocol.go:48-60 | a frame that was read has version 1 and one of the four types |
| FrameLaws.FlagsAreIgnored | protocol/protocol.go:201-203 | neither decoder looks at FLAGS |
| FrameLaws.DecodersAgree | protocol/protocol.go:125-239 | on bytes beginning with STX, ReadFrame succeeds with f if and only if ParseFrame returns f and f is valid |
| FrameLaws.EncodeRead | protocol/protocol.go:100-239 | serializing what was read gives back the consumed bytes with FLAGS cleared |
| FrameLaws.ReadAllWire | protocol/protocol.go:160-239 | repeated reading of any list of valid frames with noise between them returns exactly those frames, in order, and then the end of input |
| Decimals.FirstReceipt | pos/transaction.go:267-268 | the text of the first receipt |
| Decimals.ScanFormat | pos/transaction.go:102-109 | the counter's text reads back as the same number |
| Domain.ScanAfterInsert | pos/transaction.go:595-696 | storing and loading keeps a fixed projection: last four digits, whole seconds, no masked number, no points value |
| Domain.ScannedFields | pos/transaction.go:595-696 | the same field by field |
| Domain.InsertScanIsStable | pos/transaction.go:595-696 | a second round of storing and loading changes nothing |
| TransactionManagers.TransactionManager.constructor | pos/transaction.go:89-112 | a new manager has no active transactions and the persisted counter, or 1000 |
| TransactionManagers.TransactionManager.CreateTransaction | pos/transaction.go:120-158 | the four refusals in order, looking at active transactions only, and the new transaction otherwise |
| TransactionManagers.TransactionManager.SetLoyaltyPoints | pos/transaction.go:227-241 | sets the points and their value, or fails and changes nothing |
| TransactionManagers.TransactionManager.CompleteTransaction | pos/transaction.go:254-281 | the whole new state, in each of its three outcomes; a failed INSERT keeps the transaction active and the counter raised |
| TransactionManagers.TransactionManager.FailTransaction | pos/transaction.go:284-304 | the whole new state, in each of its three outcomes |
| TransactionManagers.TransactionManager.VoidTransaction | pos/transaction.go:307-326 | succeeds exactly on a completed row, and returns the row as changed |
| TransactionManagers.TransactionManager.RefundTransaction | pos/transaction.go:329-353 | succeeds exactly on a completed row of at least the amount; the whole row becomes refunded |
| TransactionManagers.TransactionManager.SetCachedResponse | pos/transaction.go:244-251 | stores the response of an existing row |
| TransactionManagers.TransactionManager.GenerateZReport | pos/transaction.go:438-461 | reports the open batch and stamps it with one more than the largest stamp |
| Reports.GenerateReport | pos/transaction.go:464-516 | one pass over the groups fills three maps that hold the sums per currency and state of the open batch |
| Reports.MapsHoldTheirKind | pos/transaction.go:487-495 | sales are the completed, refunds the refunded and voids the voided open rows of the currency, each by their number and by their sum modulo 2^32 |
| Reports.ReportOfOneRow | pos/transaction.go:464-516 | the whole report of a batch of one row, by the state of that row |
| Tables.CountIsCardinality | pos/transaction.go:466-470 | a count is the number of the rows selected |
| Reports.ToSlice | pos/transaction.go:499-505 | each currency once, with its totals |
| Reports.ReportShowsOpenBatch | pos/transaction.go:464-497 | a report shows at most the sum of the settled open rows of a currency, exactly that if and only if no group overflows, and the same modulo 2^32 unless a count of rows overflows, which drops its group |
| Reports.CountIsOpenSales | pos/transaction.go:487-489 | the transaction count is the number of sales in the open batch modulo 2^32, unless a currency's own count overflows |
| Reports.EqualAmounts | pos/transaction.go:464-497 | a group of rows of one amount sums to its count times the amount |
| Reports.FewRowsFit | pos/transaction.go:132 | a group with few enough rows under the amount cap cannot overflow |
| DetailedReports.GenerateDetailedReport | pos/transaction.go:535-573 | the loop maps the answered rows to entries, leaving out those that are neither sale, refund nor void |
| DetailedReports.ReportTellsOfTheRows | pos/transaction.go:519-580 | without a limit there is an entry, with each column in its field, for each row created in the range that has not failed and is no unwanted void, and for no other |
| DetailedReports.LimitKeepsTheFirst | pos/transaction.go:524-526 | a limit keeps the first rows that pass, as many as it says |
| DetailedReports.RowsComeInOrder | pos/transaction.go:519-535 | the rows come in the order of their insertion |
| DetailedReports.EntriesAreTheRows | pos/transaction.go:519-580 | without a limit the entries are exactly those of the rows that pass both filters and did not fail |
| DetailedReports.LimitCountsDroppedRows | pos/transaction.go:524-550 | a full page is short of the limit by its failed rows, since LIMIT applies before they are dropped |
| DetailedReports.FullReportTotal | pos/transaction.go:519-580 | with no limit, all times and voids, the amounts of a currency add up to its settled rows |
| InterleavingSteps.StepKeeps | pos/transaction.go:254-461 | every statement, memory change and mutex operation of every thread keeps the invariant and lets rows only move forward |
| InterleavingLaws.SettlementIsFinal | pos/transaction.go:254-353 | whatever runs on, a row keeps its amount, currency, receipt, codes and split; FAILED stays FAILED; nothing becomes completed again; a stamp never changes |
| InterleavingLaws.OneRowPerId | pos/db.go:11 | one row per id, never deleted or moved, id reuse included |
| InterleavingLaws.VoidSucceedsAtMostOnce | pos/transaction.go:307-326 | Void succeeds at most once per id, under every interleaving |
| UndoLaws.AtMostOneUndoing | pos/transaction.go:307-353 | in any run of any threads at most one of all the voids and refunds of an id succeeds if and only if no refund is stored over a row already voided or refunded |
| UndoLaws.AtMostOneUndoingFrom | pos/transaction.go:307-353 | the same from any reachable state: none if the row was undone before, else at most one |
| UndoLaws.SuccessesAndLateRefunds | pos/transaction.go:342-344 | every success but the first is a refund stored late, by count |
| UndoLaws.RefundsRace | pos/transaction.go:329-353 | Refund's UPDATE has no guard: from any completed row, a schedule in which two refunds and a void of it all succeed |
| UndoLaws.RaceIsReachable | pos/transaction.go:329-353 | a new terminal reaches that race after one payment |
| InterleavingLaws.CompleteLeavesARow | pos/handler.go:241-246 | when Complete returns, failed or not, the row that processPayment then reads exists, under every interleaving |
| AnswerLaws.SuccessReplyIsRight | pos/handler.go:241-274 | under any interleaving, when a Complete has returned and its handler answers 00, the row is settled if and only if it had not failed when Complete took the mutex |
| AnswerLaws.SuccessOverFailedRow | pos/handler.go:241-274 | a new terminal reaches, with a fresh id, a Complete whose success reply stands over a FAILED row |
| InterleavingLaws.RunKeepsKnown | pos/transaction.go:254-304 | while the terminal is not restarted no step loses an id from both the active transactions and the table |
| InterleavingLaws.ReceiptsAreUnique | pos/transaction.go:267-277 | rows ever completed have different receipts, numbered upwards in insertion order, across failed inserts and restarts |
| InterleavingLaws.CountersAreOrdered | pos/transaction.go:102-109 | issued receipts do not exceed the persisted counter, nor that the counter in memory |
| InterleavingLaws.ZReportStampsWhatItSummed | pos/transaction.go:438-461 | the rows a Z-report saw open are exactly those it stamped, they keep its number, no row is stamped twice, and every stamp is accounted for |
| InterleavingLaws.BatchNumbering | pos/transaction.go:444-448 | numbers start at 1, never decrease, and repeat exactly after a batch without rows |
| InterleavingLaws.StampsHaveNoGaps | pos/transaction.go:444-448 | the stamps in use are 1 up to the number before the next |
| Tables.StampMax | pos/transaction.go:444-448 | stamping moves the largest stamp by one exactly when a row was open |
| InterleavingLaws.XAfterZIsEmpty | pos/transaction.go:433-461 | from a Z-report's UPDATE on, as long as no row is added, an X-report is empty, whatever voids, refunds, Z-reports and restarts run |
| InterleavingLaws.Conservation | pos/transaction.go:438-497 | per currency, all Z-reports and the present X-report together show at most the total of all settled rows, under every interleaving, exactly that if and only if no group overflowed, and the same modulo 2^32 unless a count of rows overflowed |
| InterleavingLaws.ConservationIsExact | pos/transaction.go:132 | the totals are exact when every reported group has few enough rows for the amount cap |
| InterleavingLaws.ExactAtDefaultCap | pos/config.go:52 | with the default cap the totals are exact while no group has more than 429 rows |
| InterleavingLaws.OneMoreOverflows | pos/config.go:52 | the bound is sharp: 430 rows of the largest amount overflow their group |
| InterleavingLaws.DetailedReportReconciles | pos/transaction.go:519-580 | a full detailed report matches the Z-reports and the X-report, exactly if and only if no group overflowed, and modulo 2^32 unless a count of rows overflowed |
| Uninterrupted.CompleteAlone | pos/transaction.go:254-281 | the steps of Complete, uninterrupted, are Complete on the ledger |
| Uninterrupted.FailAlone | pos/transaction.go:284-304 | the same for Fail |
| Uninterrupted.ZReportAlone | pos/transaction.go:438-461 | the same for the Z-report |
| Uninterrupted.VoidAlone | pos/transaction.go:307-326 | the same for Void |
| Uninterrupted.RefundAlone | pos/transaction.go:329-353 | the same for Refund |
| Handlers.MessageHandler.OnCardInsertion | pos/handler.go:111-146 | error 01 and nothing changed, or a transaction with the card, waiting for a bank |
| Handlers.MessageHandler.OnPayment | pos/handler.go:226-283 | decline fails the transaction with error 05; approval completes it, reads the row back and stores the response |
| Handlers.MessageHandler.OnPaymentProcessing | pos/handler.go:148-198 | stored response first, then error 02, then loyalty inquiry or payment |
| Handlers.MessageHandler.OnLoyaltyConfirmation | pos/handler.go:200-224 | stored response first, then error 02, then points and payment |
| Handlers.MessageHandler.OnRefund | pos/handler.go:300-335 | error 03 and nothing changed, or the refund |
| Handlers.MessageHandler.OnVoid | pos/handler.go:337-366 | error 04 and nothing changed, or the void with the row's currency |
| Handlers.MessageHandler.HandleMessage | pos/handler.go:40-75 | every message has the effect and reply of its function on the ledger |
| HandlerLaws.CardInsertionAnswer | pos/handler.go:111-146 | a card is accepted exactly for an inactive id, an amount up to the maximum and a supported currency; the reply has the card's fields and the new transaction the request's, and nothing else is set |
| HandlerLaws.CreationErrors | pos/transaction.go:124-144 | which of the four refusals applies, in the order of the checks |
| HandlerLaws.VoidAnswer | pos/handler.go:337-366 | a void succeeds exactly on a completed row; that row is then VOIDED and nothing else changes, else error 04 and no change |
| HandlerLaws.RefundAnswer | pos/handler.go:300-335 | a refund succeeds exactly on a completed row of at least the amount; that row is then REFUNDED and nothing else changes, else error 03 and no change |
| HandlerLaws.NoPaymentAnswer | pos/handler.go:155-170 | the stored response, or error 02, and no change |
| HandlerLaws.InquiryAnswer | pos/handler.go:174-195 | asking to pay with points of a card that has them is answered with these; only bank and state change |
| HandlerLaws.PaymentAnswer | pos/handler.go:226-283 | the new row column by column, the response field by field, counter and stored counter, for an approved and for a declined payment of any kind of request |
| HandlerLaws.TakenKeyAnswer | pos/handler.go:226-283 | the same when the table holds the id already: no row is added and the transaction stays active |
| HandlerLaws.CounterStartsAndGoesOn | pos/transaction.go:95-109 | the counter starts at 1000, goes on from the number stored, and starts again from 1000 if that is no 64-bit number |
| HandlerLaws.XReportAnswer | pos/handler.go:368-376 | the reply has the totals of the open rows by kind, and nothing changes |
| HandlerLaws.ZReportAnswer | pos/handler.go:378-389 | the same totals; exactly the open rows get the number of the reply, one more than the largest in use |
| HandlerLaws.DetailedReportAnswer | pos/handler.go:391-415 | the range defaults to the last 24 hours |
| Runs.HandleEvolves | pos/handler.go:40-75 | every message lets rows only move forward |
| Runs.AtMostOneVoidOrRefund | pos/handler.go:300-366 | in any run, id reuse included, at most one of all the voids and refunds of an id succeeds |
| Runs.FreshRunsAreCoherent | pos/handler.go:111-298 | in fresh-id runs active and settled ids are disjoint, active transactions wait for a bank or for points of a loyalty card, every settled row has a stored response that agrees with its columns, and no response ever changes |
| Runs.NewTerminalIsCoherent | pos/transaction.go:89-112 | a new terminal is where such runs can start |
| Runs.DuplicatesGetTheStoredResponse | pos/handler.go:155-163 | after any fresh-id run a repeated payment or loyalty request gets the very response of the first and changes nothing |
| Runs.EntryAgreesWithResponse | pos/transaction.go:554-572 | the detailed report's entry of a settled row says what the stored response told the ECR |
| Runs.PaymentOfReusedId | pos/transaction.go:120-158 | an approved payment leaves the active transactions exactly when the table does not hold its id, and its row is then completed; otherwise it reports success over the old row, whose state and columns stay and whose stored response is overwritten |
| Runs.FailedIdReportedAsPaid | pos/handler.go:241 | so a declined id, inserted again and approved, is reported as paid while its row stays FAILED |
| Retries.Again | pos/handler.go:111-389 | a second delivery of any request changes only times of last change |
| Retries.RetrySafety | ecr/client.go:194-218 | any number of deliveries, one or more, leave the ledger of one, times of last change aside |
| Retries.AgreeButInTimes | ecr/client.go:194-218 | what two ledgers that agree in this sense agree in |
| Retries.RetriedReply | ecr/client.go:173-175 | for every request, exactly when its second delivery is answered as the first was: refused or changing nothing, asking for points, or an approved payment that looks for the stored response |
| Retries.BothReplies | pos/handler.go:148-298 | what both deliveries of a payment request for an active id are answered |
| Retries.SecondZAnswer | pos/transaction.go:438-461 | a Z-report after another shows nothing, under the same number if the first had nothing to close and under the next if it had |
| Retries.RepeatedCompletionIsNotFound | pos/handler.go:285-298 | an approved PaymentCompletionRequest is answered 02 when repeated, although the response is stored |
| Clients.Client.GetNextSequence | ecr/client.go:282-287 | one more, modulo 2^16 |
| Clients.Client.SendMessage | ecr/client.go:176-221 | every attempt writes the same frame, at most MaxRetries + 1 of them; the first answered attempt ends the call; a client that is not connected sends nothing |
| Clients.AnsweredInTime | ecr/client.go:194-218 | if attempt k is the first answered and k is at most MaxRetries, k + 1 attempts are made and its reply is the result |
| Clients.NeverAnswered | ecr/client.go:194-220 | with none of the attempts 0 to MaxRetries answered, MaxRetries + 1 are made and the call gives up |
| Clients.NoAttemptMade | ecr/client.go:194-220 | a negative MaxRetries makes no attempt and returns neither reply nor error |
| Clients.SendMessageActsOnce | ecr/client.go:194-221 | however a call ends, the terminal is as if it had handled the request once or not at all, and once if it was answered |
| Clients.ZReportOverRetries | ecr/client.go:194-218 | an answered Z-report closes the batch once, and shows its totals if and only if its first delivery was the one answered or nothing was open |
| PaymentFlows.PaymentRequest.SelectBank | ecr/payment.go:75-89 | the first bank if none is given, the first application of that bank, and loyalty only if it supports it |
| PaymentFlows.FindBankIsFirst | ecr/payment.go:83-89 | the search finds the first application of the bank, or there is none |
| PaymentFlows.ChoosePoints | ecr/payment.go:117-135 | the clamped points and their value |
| PaymentLaws.PointsAreWithinBounds | ecr/payment.go:117-135 | never more points than available, than cents of the amount, or than asked for; one of the three is reached |
| PaymentFlows.PaymentFlow.ExecutePayment | ecr/payment.go:49-168 | result and terminal after the whole flow over the retrying client, connected or not, for any pattern of lost requests and replies, any bank decision and any card |
| PaymentLaws.PaidOnce | pos/handler.go:226-283 | however often a paying request is delivered, the terminal pays once |
| PaymentLaws.PaymentEndToEnd | ecr/payment.go:75-158 | for a fresh id success means a completed row with an exact split: card and loyalty parts make the amount, points suffice, nothing wraps, points are used exactly if asked for, allowed by the bank and on the card, and bank, AID and installments are those chosen; and a completed row means success exactly when the last exchange was answered |
| PaymentLaws.SuccessByFields | ecr/payment.go:75-158 | the same by fields: the bank asked for or else the card's first, the AID and permission of its first application, the fewest of the points asked for, had and needed, and a result with the card's and the row's fields |
| PaymentLaws.ResultOfStages | ecr/payment.go:60-148 | which error each stage gives |
| PaymentLaws.PaymentSparesOthers | ecr/payment.go:49-168 | a payment touches no other transaction or row |
| Sessions.HandleFrame | pos/server.go:238-303 | replies to PING and DATA, and the frames that stop the loop |
| Sessions.HandleClientMessages | pos/server.go:194-230 | the loop over the byte stream serves exactly the frames that repeated reading returns, up to the first that stops it |
| SessionLaws.EveryFrameIsAnswered | pos/server.go:257-297 | one reply per frame in order: PONG echoes the sequence, an unsupported body echoes the request's, the n-th supported message is numbered n modulo 2^16 and answered by the ledger after those before it |
| SessionLaws.SessionIsARun | pos/server.go:265-297 | the ledger after a session that has the terminal to itself is that of the run of its messages |
| SessionLaws.StopsAtFirst | pos/server.go:245-255 | nothing is answered from the first CLOSE, PONG or undecodable frame on |
| SessionLaws.SentIsRead | pos/server.go:306-327 | the client reads back exactly the frames sent if and only if they are valid and fit the LEN field |
| SessionLaws.OversizedIsLost | pos/server.go:306-327 | of frames with an oversized one, those before it are read back and it is not |
| SessionLaws.SessionEndToEnd | pos/server.go:194-349 | for any bytes received: one run of the messages up to the first frame that stops the loop, one reply for each, and the client reads back exactly the replies if and only if each marshalled reply has at most 65535 bytes |
| SessionLaws.OversizedReportIsLost | protocol/protocol.go:107-108 | a detailed report that marshals to more than 65535 bytes never reaches the client |
| Connections.ClientFrameCarries | ecr/client.go:184-189 | the frame a client sends is decoded to its request |
| Connections.RequestsAreAnswered | pos/server.go:265-297 | over both byte streams: the terminal handles exactly the client's requests, in order, the i-th reply answers the i-th request, and the client reads exactly these replies if and only if each fits the LEN field |
| Connections.SendMessageOverBytes | ecr/client.go:194-218 | the copies of a frame that arrive leave the terminal as the exchange of that SendMessage does, and the last reply frame carries its reply |

## Left out

- TCP, TLS, certificates, deadlines, idle monitoring, the connections map, shutdown and logging: I/O without a hard property.
- Protobuf: marshalling is a pair of arbitrary functions on message bodies; a response is stored and loaded as a value. Only responses with code 00, whose encoding is not empty, are ever stored.
- Frames.ReadFrame: a reader that blocks or times out is a stream that has not ended, and messages of errors are their kinds.
- SQLite: statements are atomic and fail only on the primary key; sums stay below 2^63; rows are listed in insertion order, as a scan of a table without an index on created_at lists them. Times are compared as whole seconds rather than as text, which is the same within one time zone.
- A crash between Complete's INSERT and its write of the counter: restarts happen between operations.
- Domain.ScanAfterInsert: times are whole numbers of seconds in the table; the text form and its zone are not modelled.
- The pointer that the manager hands to handlers: transactions are values in a map, so a handler sees the transaction as it was when it asked for it. Handlers read only the id and card through that pointer.
- Handlers.MessageHandler.HandleMessage: one reading of the clock per message stands for several, and message texts, message ids, the refund's and void's own ids and codes, the loyalty card number and the answers of version, terminal, bank and gift card requests are not modelled.
- Interleavings of whole handlers beyond the manager's operations: what a handler does between its calls is in memory of its own. `AnswerLaws` covers what a success reply is worth; the laws of `Runs`, `Retries` and `PaymentLaws` take each message as one step.
- Retries.RetriedReply: a detailed report that leaves a time out takes it from the clock of its delivery; the law asks for both times, or for two deliveries at one time.
- Clients.SendMessageActsOnce: what SendMessage leaves out below is left out here.
- Clients.Client.SendMessage: a reply frame whose payload cannot be decoded, since the terminal encodes every reply; and a reply that arrives after the client gave up waiting for it, and is then read as the reply to a later request; the code does not match replies to requests and the model says nothing about it. A writer that keeps failing after its first failure is among the network behaviours allowed.
- PaymentFlows.PaymentFlow.ExecutePayment: requires of a connected client a retry limit that is not negative, since with a negative one SendMessage returns neither response nor error and the program would crash; late replies are left out as for SendMessage.
- Sessions.HandleFrame: a write to the connection that fails, which ends the loop after the message has been handled.
- SessionLaws.SessionIsARun: several connections at once; their messages interleave on one ledger, of which `Runs` treats whole messages in any order and `Interleavings` the manager's operations, but a session's replies are stated for a connection that has the terminal to itself.
- SessionLaws.SessionEndToEnd: the same.
- InterleavingLaws.RunKeepsKnown: a restart loses the active transactions, as in the program; rows are never lost (OneRowPerId).
- GetStatistics, date-range listing, receipt printing, the convenience payments and the example programs: they would add only easy members.
