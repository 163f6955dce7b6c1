# Model of the vxldollar library core

A Dafny model of the state machines and codecs in the node's library: the proof-of-work pool, number and
account texts, block serialisation and its cache, and the smaller stateful parts (token bucket, IPC send
queue, timed locks, representative weights, block builders). Check everything with
`dafny verify dfyconfig.toml`.

How the modules fit together:

- `WorkPool` is the pool as a step system with any number of workers; `WorkPoolSafety`,
  `WorkPoolProgress` and `WorkPoolShutdown` prove what holds over every run, and `WorkPoolEffects` what each
  call does; `WorkPoolObject` has the lock sections and the search loop as code, tied to the steps.
- `Options` and `Sequences` hold what everything shares, `Numerals` and `FixedBytes` positional numerals and
  fixed-width byte strings. On them stand `AccountText` (base-32 accounts), `Amounts` (the printing and
  parsing loops), `BalanceText` (what the printed balances mean and when they read back) and `BalanceForms`
  (exactly what is printed and read).
- `ByteStream`, `Blocks`, `BlockStream`, `Sideband`, `BlockFormat`, `BlockJson` and `BlockUniquer` are the
  block codecs and the cache of live blocks.
- `TokenBucket`, `SendQueue`, `TimedLocks`, `RepWeights` and `BlockBuilder` each model one component: a class
  with its methods, a function on values that says what each method does, and theorems over whole runs.

Some properties one might expect do not hold. For these the exact condition is proved, with a concrete case:

- formatting a balance can divide by zero (`FormatFailsExactly`, `FormatFailureWitness`);
- a request submitted before a stop may never be answered (`AnsweredAfterStopExactly`, `UnansweredWitness`);
- the send queue stalls for good after a failed write with a backlog (`StuckExactly`, `StuckForever`,
  `StuckWitness`);
- the member JSON readers of two block types reject what their printers write (`MemberReadsBackExactly`,
  which is about every block);
- the bucket does not always refill at the rate rate_limiting.hpp promises, and asked too often not at all
  (`PromisedRateExactly`, `HastyExactly`, `HastyWitness`).

## Model

| member | source | states |
|---|---|---|
| `WorkPoolSafety.StepKeepsInv` | work.cpp:81-172 | Every step of any worker, and every cancel, stop, generate and notify, keeps the invariant: a worker whose saved ticket equals the shared one has copied exactly the current front of the queue. |
| `WorkPoolSafety.RunKeepsInv` | work.cpp:60-199 | The invariant holds after every run, for any number of workers and any interleaving. |
| `WorkPoolSafety.ClaimTakesSolvedItem` | work.cpp:122-133 | In every reachable state a worker that finds its ticket unchanged pops exactly the item it solved, and the work it is about to deliver meets that item's difficulty. |
| `WorkPoolSafety.ClaimIsExclusive` | work.cpp:122-133 | Once one worker has claimed, no other worker that was searching can claim on its saved ticket. |
| `WorkPoolSafety.ClaimsInSubmissionOrder` | work.cpp:126-129 | Claims happen in submission order, and everything claimed was submitted before everything still queued. |
| `WorkPoolSafety.DeliveredWorkMeetsDifficulty` | work.cpp:122-133 | Every work value a callback was ever told meets the difficulty recorded for its request, difficulty 0 included. |
| `WorkPoolSafety.KeepSpec` | work.cpp:158-170 | Cancel keeps exactly the queued items with another root, and the front if it has another root. |
| `WorkPoolSafety.KeepIncreasing` | work.cpp:158-170 | The items cancel keeps stay in submission order behind everything claimed. |
| `WorkPoolSafety.NoneAnswersSpec` | work.cpp:158-170 | Cancel answers "none" to every queued item with the cancelled root that has a callback, and to no other item. |
| `WorkPoolSafety.CancelBalances` | work.cpp:158-170 | Cancel splits the queue exactly: each item is kept, answered "none", or dropped because it has no callback, and none of them twice. |
| `WorkPoolSafety.RunKeepsLedger` | work.cpp:122-199 | Over every run the ledger of queued, popped, answered and dropped requests is exactly the requests ever submitted. |
| `WorkPoolSafety.EveryRequestExactlyOnce` | work.cpp:122-199 | In every reachable state, after stop too, each submitted request is in exactly one place: queued, popped with its callback to run, answered once, or dropped without a callback. |
| `WorkPoolSafety.NoLostWakeup` | work.cpp:71-74 | In every reachable state, if a worker sleeps while work is queued or the pool is stopped, a notify_all is still to come. |
| `WorkPoolProgress.StaleSearchEnds` | work.cpp:97-121 | Once the ticket has moved, a worker in the CPU search makes at most the rest of its batch, so at most 256, more hash attempts before it leaves, over every run. |
| `WorkPoolProgress.NoDeadlock` | work.cpp:71-143 | While work is queued, the pool runs and no notification is owed, every worker that has not failed on an empty callback has an enabled step of its own other than waking up. |
| `WorkPoolProgress.LuckyStepCosts` | work.cpp:81-143 | If every attempt succeeds, each step uses up part of a budget fixed by the queue and the workers, spurious wakeups apart. |
| `WorkPoolProgress.LuckyRunIsBounded` | work.cpp:81-143 | So with no new requests such a run is valid and has at most that many steps, plus eight for each spurious wakeup. |
| `WorkPoolProgress.QuietMeansDrained` | work.cpp:71-143 | And when no worker can step and no notification is owed, as long as one worker has not failed, the queue is empty and every worker sleeps or has failed. |
| `WorkPoolEffects.CancelDoes` | work.cpp:147-172 | In every reachable state a cancel leaves a stopped pool alone; otherwise exactly the items with another root stay queued, exactly those with the root and a callback are told none, each list in submission order, and the ticket moves exactly when the front is cancelled. |
| `WorkPoolEffects.GenerateDoes` | work.cpp:184-199 | The request is recorded with the root, difficulty and callback given; with threads it joins the end of the queue and a notification is owed, without threads its callback is told none at once. |
| `WorkPoolEffects.StopDoes` | work.cpp:174-182 | Sets the flag, moves the ticket, owes a notification and leaves everything else. |
| `WorkPoolEffects.DeliverDoes` | work.cpp:131-133 | A worker that has claimed an item tells its callback exactly the work found, which meets the difficulty, or fails on an empty callback. |
| `WorkPoolEffects.RunRequests` | work.cpp:184-199 | After every run the recorded requests are exactly those the generate calls of the run ask for, in order. |
| `WorkPoolEffects.AnswersMeetWhatWasAsked` | work.cpp:122-133 | Every answer of a run is to a request made with a callback, and a work value told meets the difficulty that the call asked for. |
| `WorkPoolEffects.EveryAskedExactlyOnce` | work.cpp:122-199 | After every run each request that was made is in exactly one place: queued, held by a worker, answered once, or dropped. |
| `WorkPoolShutdown.StopFreezesQueue` | work.cpp:174-182 | After stop no run claims anything or removes anything from the queue. |
| `WorkPoolShutdown.QueuedAtStopNeverAnswered` | work.cpp:174-182 | A request still queued when the pool stops is never answered, whatever happens next. |
| `WorkPoolShutdown.RunKeepsDropped` | work.cpp:158-199 | Over every run, every request dropped unanswered had no callback. |
| `WorkPoolShutdown.RunAppends` | work.cpp:174-199 | After stop every run leaves old requests and the queue as they were, and only new requests join the queue. |
| `WorkPoolShutdown.AnsweredAfterStopExactly` | work.cpp:71-199 | Of the requests with a callback submitted before a stop, once the workers have ended, a request has been answered if and only if it was not in the queue at the stop. |
| `WorkPoolShutdown.UnansweredWitness` | work.cpp:174-199 | A concrete run that ends with an unanswered request: one request, a stop, and the worker leaves. |
| `WorkPoolShutdown.ShutdownIsBounded` | work.cpp:51-143 | After a stop, in every run and with no luck assumed, the workers take at most 258 steps each, spurious wakeups included, and there is one notification for each call that owes one. |
| `WorkPoolShutdown.QuietMeansEnded` | work.cpp:51-58 | And when no worker can step and no notification is owed, every worker has left its loop or failed on an empty callback, so every thread can be joined. |
| `WorkPoolObject.PoolObject.constructor` | work.cpp:25-49 | A new pool has an empty queue, ticket 0 and is not stopped. |
| `WorkPoolObject.PoolObject.Generate` | work.cpp:184-199 | Records the request as given, and queues it, or answers "none" at once when there are no threads. |
| `WorkPoolObject.PoolObject.Stop` | work.cpp:174-182 | Sets the stop flag and moves the ticket, and changes nothing else. |
| `WorkPoolObject.PoolObject.Cancel` | work.cpp:147-172 | Leaves a stopped pool alone; otherwise keeps exactly the items with another root, tells none to exactly the others with a callback, and moves the ticket exactly when the front is cancelled. |
| `WorkPoolObject.PoolObject.RemoveIf` | work.cpp:159-170 | The loop over the queue keeps, answers and drops exactly the items the three specification lists name. |
| `WorkPoolObject.PoolObject.Enter` | work.cpp:71-86 | Decides between leaving, sleeping and copying the front item with the ticket. |
| `WorkPoolObject.PoolObject.TryClaim` | work.cpp:122-130 | Claims exactly when the ticket is unchanged, and then pops the front and moves the ticket. |
| `WorkPoolObject.PoolObject.Tell` | work.cpp:131-133 | Runs the callback of a claimed item once, with its work value. |
| `WorkPoolObject.CpuSearch` | work.cpp:96-121 | The two nested search loops: the result is the hash of the last value tried, no earlier value was good enough, there is at most one batch of 256 attempts for each read of the ticket that matched, and the search ends on a good value or on a moved ticket. |
| `FixedBytes.HexRoundTrip` | numbers.cpp:220-256 | Every 128-, 256- or 512-bit value reads back from its printed hex digits. |
| `FixedBytes.U64HexRoundTrip` | numbers.cpp:866-909 | Every 64-bit value reads back from its printed hex digits. |
| `FixedBytes.HexPrinted` | numbers.cpp:220-227 | Two upper-case digits per byte are printed, with the value of the bytes read big-endian. |
| `FixedBytes.HexDecodesExactly` | numbers.cpp:229-256 | A text decodes to given bytes if and only if it is not too long, not empty where that is refused, all hexadecimal digits, and has the value of the bytes. |
| `FixedBytes.U64HexPrinted` | numbers.cpp:866-872 | Sixteen lower-case digits with the value are printed. |
| `FixedBytes.U64DecodesExactly` | numbers.cpp:882-909 | A text decodes to a 64-bit value if and only if it is one to sixteen hexadecimal digits of that value. |
| `AccountText.EncodeThenDecode` | numbers.cpp:15-33 | Every base-32 digit survives printing and reading through the two tables. |
| `AccountText.DecodeThenEncode` | numbers.cpp:15-33 | Every character the reverse table accepts is the printed form of its digit. |
| `AccountText.EncodeAccount` | numbers.cpp:36-57 | The loop that peels off digits and reverses the text prints the 60 big-endian base-32 digits of key and check behind the prefix. |
| `AccountText.DecodeDigits` | numbers.cpp:102-117 | The digit loop computes the base-32 value modulo the accumulator width, and fails exactly when some character is no digit. |
| `AccountText.DecodeAccountText` | numbers.cpp:86-142 | The whole reader, prefix, length, first character and check included, agrees with its specification on every text. |
| `AccountText.AccountNumberBound` | numbers.cpp:45-47 | Key and check together always fit 296 bits. |
| `AccountText.FirstDigit` | numbers.cpp:48-54 | So the first of the 60 digits is 0 or 1 and no bit of the number is lost. |
| `AccountText.PrintedFirstCharacter` | numbers.cpp:36-57 | The first character of every printed account is 1 or 3. |
| `AccountText.PrintedKeyDecodes` | numbers.cpp:76-142 | For every 256-bit key and every check function, both the account text and the node id text decode to that key. |
| `AccountText.DecodedTextIsPrinted` | numbers.cpp:86-142 | Every text with a vxld prefix that decodes has 65 characters and is, up to the separator, the printed form of the decoded key. |
| `AccountText.AccountTextInjective` | numbers.cpp:36-57 | No two keys are printed alike. |
| `AccountText.DecodingInjective` | numbers.cpp:86-142 | No two vxld texts with the same separator decode to one key. |
| `AccountText.PrintedValue` | numbers.cpp:36-57 | The 60 characters behind vxld_ have the base-32 value of the key above the low 40 bits of its digest. |
| `AccountText.NodeIdBody` | numbers.cpp:76-79 | A node id has the same characters behind node_. |
| `AccountText.DecodesExactly` | numbers.cpp:86-142 | A vxld text decodes to a key if and only if it has 65 characters, the last 60 account characters starting with 1 or 3, whose value is the key above the low 40 bits of its digest. |
| `AccountText.NodeDecodesExactly` | numbers.cpp:86-142 | A node_ text of any length decodes to a key if and only if its characters are readable and its value modulo 2^512 holds the check in the low 40 bits and the key, cut to 256 bits, above them. |
| `AccountText.OtherPrefixRejected` | numbers.cpp:92-97 | Texts with any other prefix are refused. |
| `AccountText.AlphabetExactly` | numbers.cpp:15-33 | The account characters are exactly the digits and lower-case letters without 0, 2, l and v. |
| `AccountText.AlphabetInOrder` | numbers.cpp:15-22 | The digits are these characters in the order of their codes. |
| `Amounts.FormatFrac` | numbers.cpp:646-658 | The loop prints exactly the fraction digits of the value, stopping at the precision or at remainder zero. |
| `Amounts.FracValue` | numbers.cpp:646-658 | The digits printed and the remainder left make up the value. |
| `Amounts.FracRestBound` | numbers.cpp:646-658 | The remainder is below one unit of the last place printed, and zero unless the precision or the scale ended the loop. |
| `Amounts.FracNoTrailingZero` | numbers.cpp:646-658 | Digits that leave no remainder do not end in a zero, so the number of digits printed is determined. |
| `Amounts.MarkGroups` | numbers.cpp:681-701 | The backward loop marks exactly the digits that open a group. |
| `Amounts.LargestPower` | numbers.cpp:662-673 | The first loop finds the number of digits of the value and the weight of its first digit. |
| `Amounts.AmountDigits` | numbers.cpp:675-682 | Every 128-bit value has at most 39 digits, so the early return is never taken and every group index is in range. |
| `Amounts.PrintDigits` | numbers.cpp:703-716 | The second loop prints the digits with a separator after each marked one. |
| `Amounts.FormatDec` | numbers.cpp:660-717 | The three parts together print the marked digits of the value. |
| `Amounts.FormatDecGroups` | numbers.cpp:660-717 | For every grouping list of positive sizes the text is the canonical numeral cut from the right into groups of the listed sizes, the last size repeating. |
| `Amounts.MarkedPlain` | numbers.cpp:660-717 | Without a separator the text is the canonical numeral. |
| `Amounts.DividePrecision` | numbers.cpp:724-728 | The loop that divides the scale once per place computes the weight of the last place, zero beyond the scale. |
| `Amounts.PrintBelow` | numbers.cpp:729-742 | Prints the text for an amount below the smallest printable unit. |
| `Amounts.PrintBalance` | numbers.cpp:743-752 | Prints whole part, point and fraction, and no point when there are no fraction digits. |
| `Amounts.FormatBalance` | numbers.cpp:719-754 | Agrees with its specification on every input, division by zero included. |
| `BalanceText.FormatFailsExactly` | numbers.cpp:719-729 | Formatting divides by zero if and only if the precision exceeds the places of the scale and the balance is positive and below the scale. |
| `BalanceText.FormatFailureWitness` | numbers.cpp:719-729 | A concrete input on which it does: balance 1, scale 10, precision 2. |
| `BalanceText.PrintedDenotes` | numbers.cpp:743-752 | The printed text denotes the balance less what was cut off. |
| `BalanceText.CutOffBelowUnit` | numbers.cpp:646-658 | Less than one unit of the last place is ever cut off. |
| `BalanceText.NeverOverstates` | numbers.cpp:719-754 | Whenever a text is produced, it is the "below" form exactly for a positive balance under one unit, and otherwise its value v satisfies v <= balance < v + unit and it starts and ends in a digit. |
| `BalanceText.ParserSound` | numbers.cpp:567-644 | Whenever the parser accepts a text, the result is the value the text denotes. |
| `BalanceText.CutOffExactly` | numbers.cpp:646-658 | Nothing is cut off if and only if the balance is a multiple of the unit. |
| `BalanceText.BelowTextRejected` | numbers.cpp:567-644 | The parser rejects the "below" form. |
| `BalanceText.BalanceRoundTrip` | numbers.cpp:567-754 | For every 128-bit balance, scale and precision: formatting and parsing returns the balance if and only if the balance is a multiple of the printed unit, or, past the places of the scale, formatting does not fail. |
| `BalanceText.FullPrecisionRoundTrip` | numbers.cpp:567-754 | At full precision every balance reads back, and the text is never longer than the 40 characters the parser allows. |
| `BalanceForms.DecPrinted` | numbers.cpp:532-539 | The decimal text of a value is its digits without a leading zero. |
| `BalanceForms.DecDecodesExactly` | numbers.cpp:541-565 | A text decodes to a value if and only if it is at most 39 digits of that value, which fits 128 bits, with no leading zero unless it is read as decimals. |
| `BalanceForms.ParsesExactly` | numbers.cpp:567-644 | The scaled parser returns a value if and only if the text has at most 40 characters, is a numeral with at most as many digits behind a point as the scale has places, and denotes that value, which fits 128 bits. |
| `BalanceForms.FormatsExactly` | numbers.cpp:719-754 | For every balance, scale, precision, separator, point and list of positive group sizes: no text where the division fails, the "below" form under the last place, and otherwise the whole part, grouped exactly if asked for, followed by point and fraction digits exactly when precision and fraction are positive. |
| `BalanceForms.BelowDenotesLastPlace` | numbers.cpp:729-742 | The number behind the sign of the "below" form is one unit of the last place. |
| `BalanceForms.BelowPoint` | numbers.cpp:729-742 | Another decimal point changes only that character. |
| `ByteStream.Stream.Write` | stream.hpp:39-46 | Appends exactly the bytes given. |
| `ByteStream.Stream.TryRead` | stream.hpp:12-28 | Takes exactly the bytes asked for from the front, or fails exactly when too few are left and uses up the stream. |
| `Blocks.NativeRoundTrip` | blocks.cpp:273-280 | A 64-bit value kept in host byte order reads back, on either kind of host. |
| `Blocks.SwappedIsBig` | blocks.cpp:1151-1160 | Swapping before a native write and after a native read is big-endian storage on every host. |
| `Blocks.LayoutOfSerialized` | blocks.cpp:1377-1418 | For every block of the five types the fields read at the fixed offsets are the fields written. |
| `Blocks.SerializedLayout` | blocks.cpp:1377-1418 | And every body of the right length is what serialising the block read from it writes. |
| `BlockStream.WriteSend` | blocks.cpp:273-280 | Writes exactly the bytes of the send block. |
| `BlockStream.WriteReceive` | blocks.cpp:1436-1442 | Writes exactly the bytes of the receive block. |
| `BlockStream.WriteOpen` | blocks.cpp:610-617 | Writes exactly the bytes of the open block. |
| `BlockStream.WriteChange` | blocks.cpp:861-867 | Writes exactly the bytes of the change block. |
| `BlockStream.WriteState` | blocks.cpp:1151-1160 | Writes exactly the bytes of the state block, its work big-endian. |
| `BlockStream.WriteBlock` | vxldollar/secure/common.cpp:229-233 | Writes the type byte and then the body. |
| `BlockStream.ReadSend` | blocks.cpp:371-386 | Reads the block at the front of the stream and leaves the rest, or fails exactly when too few bytes are left. |
| `BlockStream.ReadReceive` | blocks.cpp:1525-1540 | As ReadSend, for receive blocks. |
| `BlockStream.ReadOpen` | blocks.cpp:545-560 | As ReadSend, for open blocks. |
| `BlockStream.ReadChange` | blocks.cpp:802-817 | As ReadSend, for change blocks. |
| `BlockStream.ReadState` | blocks.cpp:1079-1095 | As ReadSend, for state blocks. |
| `BlockStream.ReadBlock` | blocks.cpp:1365-1418 | Reads the type byte and the body of that type; an unknown type uses up only its byte. |
| `BlockStream.BodyDecodesExactly` | blocks.cpp:54-80 | A body decodes if and only if at least the size of its type is left, and then it is that block followed by the rest. |
| `BlockStream.BlockRoundTrip` | blocks.cpp:1365-1418 | Every block reads back from its bytes with whatever follows left untouched. |
| `BlockStream.SequenceRoundTrip` | blocks.cpp:1365-1418 | Every sequence of blocks reads back as itself, with whatever follows left untouched. |
| `BlockStream.EncodingIsPrefixFree` | blocks.cpp:1365-1418 | No block's bytes start another's, so a stream of blocks can be cut in one way only. |
| `BlockStream.HostIndependence` | blocks.cpp:273-280 | Two hosts of different byte order write the same bytes if and only if the block is a state block or its work is a byte palindrome. |
| `Sideband.UnpackPacked` | blocks.cpp:1685-1702 | Unpacking the flag byte returns the flags and the epoch modulo 32, so it is the inverse exactly for epochs below 32. |
| `Sideband.PackedUnpack` | blocks.cpp:1685-1702 | Packing what a byte unpacks to returns the byte. |
| `Sideband.StoredFields` | blocks.cpp:1794-1815 | Where each carried field lies in the bytes written for each type. |
| `Sideband.SidebandRoundTrip` | blocks.cpp:1794-1856 | For every type, reading back restores every field carried for it, height 1 for open blocks, and leaves the others alone. |
| `Sideband.WriteSideband` | blocks.cpp:1794-1815 | Writes exactly the stored form, whose length is the size for the type. |
| `Sideband.ReadSideband` | blocks.cpp:1817-1856 | Reads exactly the size for the type, or fails exactly when fewer bytes are left. |
| `Sideband.StoredSidebandParses` | blocks.cpp:1769-1856 | On a stream the carried fields come back and what follows is left untouched. |
| `BlockFormat.SendFormat` | blocks.cpp:273-280 | Type byte 2 and 152 bytes: previous, destination, balance, signature, and the work in host order, at fixed offsets. |
| `BlockFormat.ReceiveFormat` | blocks.cpp:1436-1442 | Type byte 3 and 136 bytes: previous, source, signature, work in host order. |
| `BlockFormat.OpenFormat` | blocks.cpp:610-617 | Type byte 4 and 168 bytes: source, representative, account, signature, work in host order. |
| `BlockFormat.ChangeFormat` | blocks.cpp:861-867 | Type byte 5 and 136 bytes: previous, representative, signature, work in host order. |
| `BlockFormat.StateFormat` | blocks.cpp:1151-1160 | Type byte 6 and 216 bytes: account, previous, representative, balance, link, signature, work big-endian. |
| `BlockFormat.OtherTypesRefused` | blocks.cpp:1365-1418 | Reading succeeds exactly for type bytes 2 to 6 with the bytes of the type behind them; another type byte uses up itself only. |
| `BlockFormat.FlagByte` | blocks.cpp:1685-1692 | Five bits of epoch below the epoch, receive and send flags of weight 32, 64 and 128. |
| `BlockFormat.SendSidebandFormat` | blocks.cpp:1794-1815 | 80 bytes: successor, account, height and timestamp big-endian. |
| `BlockFormat.ReceiveSidebandFormat` | blocks.cpp:1794-1815 | For receive and change blocks 96 bytes: successor, account, height, balance, timestamp. |
| `BlockFormat.OpenSidebandFormat` | blocks.cpp:1794-1815 | 56 bytes: successor, balance, timestamp. |
| `BlockFormat.StateSidebandFormat` | blocks.cpp:1794-1815 | 50 bytes: successor, height, timestamp, flag byte, source epoch. |
| `BlockFormat.SidebandBringsBack` | blocks.cpp:1817-1856 | Which fields each type brings back, and that the others stay. |
| `BlockFormat.SidebandReadsExactly` | blocks.cpp:1769-1856 | Reading succeeds exactly when 80, 96, 56, 96 or 50 bytes are there for send, receive, open, change and state. |
| `BlockJson.HexIsNoAccount` | numbers.cpp:86-142 | No 64-digit upper-case hex text is ever accepted as an account. |
| `BlockJson.HeldLink` | blocks.cpp:1026-1057 | So the hex reading of a state block's link always runs and returns the link. |
| `BlockJson.SendJson` | blocks.cpp:388-408 | A tree with the printed fields of a send block reads as that block. |
| `BlockJson.ReceiveJson` | blocks.cpp:1542-1562 | The same for receive blocks. |
| `BlockJson.OpenJson` | blocks.cpp:562-582 | The same for open blocks. |
| `BlockJson.ChangeJson` | blocks.cpp:819-839 | The same for change blocks. |
| `BlockJson.StateJson` | blocks.cpp:1097-1122 | The same for state blocks. |
| `BlockJson.JsonRoundTrip` | blocks.cpp:1321-1363 | Every block of the five types reads back from the tree it is printed to. |
| `BlockJson.MemberReadsPrinted` | blocks.cpp:326-359 | The member readers of send, receive and state blocks read every printed block as the constructors do. |
| `BlockJson.MemberRejectsPrinted` | blocks.cpp:659-693 | The member readers of open and change blocks reject every block that the printer wrote. |
| `BlockJson.MemberReadsBackExactly` | blocks.cpp:907-936 | So a printed block reads back through the member reader of its type if and only if it is neither an open nor a change block. |
| `BlockJson.SendPrinted` | blocks.cpp:310-324 | The names and texts of a printed send block: hexadecimal previous and balance, destination as an address. |
| `BlockJson.ReceivePrinted` | blocks.cpp:1471-1484 | The names and texts of a printed receive block. |
| `BlockJson.OpenPrinted` | blocks.cpp:647-657 | The names and texts of a printed open block. |
| `BlockJson.ChangePrinted` | blocks.cpp:896-905 | The names and texts of a printed change block. |
| `BlockJson.StatePrinted` | blocks.cpp:1193-1206 | The names and texts of a printed state block: decimal balance, and the link both in hexadecimal and as an address. |
| `BlockJson.JsonReadsExactly` | blocks.cpp:1321-1363 | A tree reads as a block if and only if it names the type, has every name the type needs, and every text decodes to the field. |
| `BlockJson.LinkReadsAddress` | blocks.cpp:1047-1048 | A link written as an address is read as that key. |
| `BlockJson.AddressLinkReadsBack` | blocks.cpp:1026-1057 | So a state block written with its link as an address reads as the same block. |
| `BlockUniquer.Uniquer.CleanUp` | blocks.cpp:1875-1893 | Exactly two entries are picked, and exactly the dead ones among them are erased. |
| `BlockUniquer.Uniquer.Unique` | blocks.cpp:1858-1893 | Returns the live object registered for the key, or registers the given one; the clean-up erases only dead entries, at most two, and the map grows by at most one. |
| `BlockUniquer.BehaviourKeepsInv` | blocks.cpp:1858-1897 | The cache invariant holds along every interleaving of creation, calls and reference drops. |
| `BlockUniquer.OneLiveObjectPerKey` | blocks.cpp:1858-1897 | At any time two live objects that were ever handed out for one key are the same object, and the map points to it. |
| `BlockUniquer.UniqueSharesLiveObject` | blocks.cpp:1858-1897 | A call returns a live object of the same content, and the one already handed out if that is alive. |
| `TokenBucket.TokenBucket.constructor` | rate_limiting.cpp:7-10 | A new bucket is a reset one. |
| `TokenBucket.TokenBucket.Reset` | rate_limiting.cpp:47-60 | Fills the bucket; a zero count or rate asks for the unlimited sentinel. |
| `TokenBucket.TokenBucket.Refill` | rate_limiting.cpp:33-39 | Adds what the time since the last refill earned, up to the maximum. |
| `TokenBucket.TokenBucket.TryConsume` | rate_limiting.cpp:12-31 | Refills, grants exactly what is affordable or unlimited, and keeps smallest <= current <= maximum. |
| `TokenBucket.TokenBucket.LargestBurst` | rate_limiting.cpp:41-45 | The maximum less the smallest level seen, never negative. |
| `TokenBucket.GrantedFromLevel` | rate_limiting.cpp:12-39 | From any level, a run of calls grants at most that level and what the elapsed time earned. |
| `TokenBucket.BurstBound` | rate_limiting.cpp:12-39 | A run of calls grants at most one full bucket and what the time between its first and last call earned. |
| `TokenBucket.WindowBound` | rate_limiting.cpp:12-60 | The same for every window of calls i to j of every run since reset. |
| `TokenBucket.SentinelGrantsAll` | rate_limiting.cpp:12-60 | An unlimited bucket grants all that any run of calls asks for. |
| `TokenBucket.GrantedExactly` | rate_limiting.cpp:12-39 | A call is granted if and only if the bucket is unlimited, or it asks for at most a full bucket and for no more than the level and what the time since the last refill is worth; a granted call takes exactly its tokens. |
| `TokenBucket.RunGrantsExactly` | rate_limiting.cpp:12-39 | Over every run a call is granted if and only if it asks for at most a full bucket and it, the grants before it and the losses are covered by the first level and the time since. |
| `TokenBucket.ResetExactly` | rate_limiting.cpp:47-60 | A reset bucket is full; with a zero count or rate it is unlimited and grants all that any run asks for. |
| `TokenBucket.RunBalances` | rate_limiting.cpp:12-39 | Over every run, tokens granted, left and lost add up to what was there and what the elapsed time was worth; lost are the fractions each refill drops, what goes over the brim, the time between the two clock readings, and what a call for the sentinel amount empties. |
| `TokenBucket.PromisedRateExactly` | rate_limiting.hpp:16-29 | A run keeps the promised tokens per second if and only if no call of it loses anything. |
| `TokenBucket.HastyExactly` | rate_limiting.cpp:33-39 | A run of calls earns no token at all if and only if each call comes before the time since the previous one has earned one. |
| `TokenBucket.HastyCallsNeverRefill` | rate_limiting.cpp:33-39 | Then the whole run grants at most what the bucket held, however long it lasts. |
| `TokenBucket.HastyWitness` | rate_limiting.cpp:33-39 | A concrete case: one token per second, asked for every half second over a whole second, grants one token. |
| `TokenBucket.SmallestIsLowest` | rate_limiting.cpp:12-31 | The smallest size is the lowest level any call of the run left. |
| `TokenBucket.LargestBurstIsDepth` | rate_limiting.cpp:41-60 | After every run since reset the largest burst is the maximum less the lowest level seen. |
| `SendQueue.Client.constructor` | ipc_client.cpp:183-185 | The queue starts empty with nothing in flight. |
| `SendQueue.Client.WriteQueuedMessages` | ipc_client.cpp:112-118 | Hands the front of the queue to the socket; only called with a message queued and none in flight. |
| `SendQueue.Client.AsyncWrite` | ipc_client.cpp:93-108 | Queues the message unless 65536 wait, and starts it if nothing was queued. |
| `SendQueue.Client.OnWritten` | ipc_client.cpp:119-132 | Pops the front, and starts the next message only if the write succeeded. |
| `SendQueue.RunKeepsInv` | ipc_client.cpp:93-133 | The queue invariant holds after every run of sends and completions. |
| `SendQueue.SendsInOrder` | ipc_client.cpp:93-133 | In every run the write in flight is the front of a queue of at most 65536; messages are written in the order accepted, none skipped; and until a write fails a write is in flight exactly when something is queued. |
| `SendQueue.AcceptsExactly` | ipc_client.cpp:93-108 | After every run a message is accepted at the end of the queue if and only if fewer than 65536 wait, and is started at once if and only if none waits. |
| `SendQueue.CompletionDoes` | ipc_client.cpp:119-132 | After every run a write that ends takes the front message off, and the next one is started if and only if it succeeded and one is queued. |
| `SendQueue.StuckExactly` | ipc_client.cpp:119-132 | The queue ends up with messages waiting and no write in flight if and only if some write failed with another message queued behind it. |
| `SendQueue.StuckWitness` | ipc_client.cpp:119-132 | A concrete run that gets stuck: two messages, and the first write fails. |
| `SendQueue.StuckForever` | ipc_client.cpp:93-133 | From then on no message is ever written again, whatever is sent. |
| `TimedLocks.LockGuard.constructor` | locks.cpp:61-70 | Starts a fresh timer and holds the mutex. |
| `TimedLocks.LockGuard.Destroy` | locks.cpp:72-76 | Gives the mutex up and stops the timer. |
| `TimedLocks.UniqueLock.constructor` | locks.cpp:78-101 | Holds the mutex with its timer running. |
| `TimedLocks.UniqueLock.Deferred` | locks.cpp:85-89 | Has a mutex it does not own and a stopped timer. |
| `TimedLocks.UniqueLock.AcquireLock` | locks.cpp:91-143 | Refuses without a mutex or when it already owns it; otherwise the timer assertion holds and it ends up owning the held mutex with the timer running. |
| `TimedLocks.UniqueLock.TryLock` | locks.cpp:145-157 | Gets the mutex exactly when it is free, and starts the timer only then. |
| `TimedLocks.UniqueLock.Unlock` | locks.cpp:159-171 | Refuses unless it owns; otherwise the mutex is free, ownership gone and the timer stopped. |
| `TimedLocks.UniqueLock.MoveAssign` | locks.cpp:103-124 | Releases what the target owned and moves mutex, ownership and timer over, leaving the source without a mutex; assigning to itself changes nothing. |
| `TimedLocks.UniqueLock.Destroy` | locks.cpp:126-136 | Frees the mutex exactly if it was owned. |
| `TimedLocks.UniqueLock.Wait` | locks.cpp:218-230 | Refuses unless the lock owns; otherwise both timer assertions hold, the mutex is given up and held again, and the timer is restarted. |
| `TimedLocks.StepKeepsInv` | locks.cpp:78-230 | Every enabled step on any number of locks and mutexes goes through without a failed assertion or a wrong unlock, and keeps the invariant. |
| `TimedLocks.RunKeepsInv` | locks.cpp:78-230 | So does every run. |
| `TimedLocks.LockDoes` | locks.cpp:91-143 | Lock starts the timer and blocks, and does nothing without a mutex or when it is owned. |
| `TimedLocks.AcquireDoes` | locks.cpp:91-101 | A blocked lock ends up owning the mutex when that is free. |
| `TimedLocks.TryLockDoes` | locks.cpp:145-157 | Takes the mutex and starts the timer, or changes nothing. |
| `TimedLocks.UnlockDoes` | locks.cpp:159-171 | An owner frees its mutex and its timer counts the time since its start; otherwise nothing changes. |
| `TimedLocks.MoveDoes` | locks.cpp:103-124 | Mutex, ownership and timer go over, and only what the target owned is released. |
| `TimedLocks.DeleteDoes` | locks.cpp:126-136 | The lock is gone and its mutex free exactly if it was owned. |
| `TimedLocks.WaitDoes` | locks.cpp:218-230 | An owner gives its mutex up and sleeps; otherwise nothing changes. |
| `TimedLocks.ResumeDoes` | locks.cpp:218-230 | On the way back the mutex is owned again and the timer starts from zero. |
| `TimedLocks.LocksAreSafe` | timer.cpp:91-132 | Over every run no timer assertion fires, an idle lock with a mutex owns it exactly when its timer runs, no two locks own one mutex, a mutex is held exactly when some lock owns it, and its releases are its acquisitions less one while held. |
| `TimedLocks.EverythingIsReleased` | locks.cpp:103-136 | When every lock is destroyed, each acquisition has been released exactly once, whatever was moved. |
| `RepWeights.RepTable.RepresentationAdd` | rep_weights.cpp:4-9 | Adds to one representative, wrapping at 2^128, and to no other. |
| `RepWeights.RepTable.RepresentationAddDual` | rep_weights.cpp:11-25 | Equals two single additions, also when both representatives are the same. |
| `RepWeights.RepTable.RepresentationPut` | rep_weights.cpp:27-31 | Replaces one weight. |
| `RepWeights.RepTable.CopyFrom` | rep_weights.cpp:46-55 | Whatever the order of the entries, the table becomes the pointwise sum. |
| `RepWeights.AddTwice` | rep_weights.cpp:11-25 | One addition of the wrapped sum of two amounts is two additions. |
| `RepWeights.TotalWithout` | rep_weights.cpp:46-82 | The total of a table does not depend on the order of summation. |
| `RepWeights.RunTotal` | rep_weights.cpp:4-82 | Modulo 2^128 the total changes by exactly the amounts added, over every run of adds, dual adds and copies, and never by more. |
| `RepWeights.RunShare` | rep_weights.cpp:4-82 | And so does the weight of each representative. |
| `RepWeights.ExactTotal` | rep_weights.cpp:4-82 | While all amounts together fit 128 bits, the total is exactly their sum. |
| `BlockBuilder.FfsMask` | blockbuilders.cpp:160-171 | The loop returns -1 exactly for zero, and otherwise the mask of a set bit below which no bit is set. |
| `BlockBuilder.LowestIsFirst` | blockbuilders.cpp:149-171 | That mask is in the error table and stands for the field with the lowest flag. |
| `BlockBuilder.FindMissing` | blockbuilders.cpp:177-193 | The check over the xor of the two flag sets agrees with its specification. |
| `BlockBuilder.CheckReportsFirstMissing` | blockbuilders.cpp:149-193 | It reports no error exactly when every required flag is set, otherwise the missing field with the lowest flag, and the table lookup never misses. |
| `BlockBuilder.BlockBuilderObject.constructor` | blockbuilders.cpp:196-205 | A new builder has no block fields, no flags and no error. |
| `BlockBuilder.BlockBuilderObject.MakeBlock` | blockbuilders.cpp:712-718 | Clears block, error and flags. |
| `BlockBuilder.BlockBuilderObject.SetField` | blockbuilders.cpp:247-252 | Sets the field and its flag. |
| `BlockBuilder.BlockBuilderObject.SetFieldFromText` | blockbuilders.cpp:254-359 | Sets the field if its text decoded, otherwise the error; the flag is set either way, except for the link of a state block. |
| `BlockBuilder.BlockBuilderObject.ZeroFields` | blockbuilders.cpp:234-245 | Zeroes every field and sets every required flag. |
| `BlockBuilder.BlockBuilderObject.CopyBlock` | blockbuilders.cpp:207-224 | Setting the seven fields one by one takes over the whole block and sets every flag. |
| `BlockBuilder.BlockBuilderObject.Build` | blockbuilders.cpp:665-674 | Reports no error exactly when there was none and all required flags are set, and hands over the block. |
| `BlockBuilder.RequiredBytes` | blockbuilders.hpp:10-20 | The required flags of the five builders as bytes, and the order of the fields by flag. |
| `BlockBuilder.FailureReported` | blockbuilders.cpp:9-148 | Whatever was called before, a text that does not decode makes the build report the error of its field, which for links depends on the builder. |
| `BlockBuilder.BuildReports` | blockbuilders.cpp:150-193 | For every sequence of setter calls: no error if and only if no text failed to decode and every field of the kind was given; otherwise the last decode failure, or if none the missing field with the lowest flag; the table is never missed. |
| `BlockBuilder.BlockHoldsLastGiven` | blockbuilders.cpp:207-359 | The built block holds for every field the last value given to it. |

## Left out

- WorkPool: the ticket is taken as unbounded; the source saves it in a 32-bit int, so wrap-around after 2^32 changes is not modelled.
- WorkPool: the hash of a root and a work value is any function, and an OpenCL result is taken to meet the difficulty it was asked for; work observers and the rate-limiting sleep are left out.
- WorkPool: a claimed request with an empty callback throws in the worker; the model stops that worker there.
- CpuSearch: successive reads of the ticket are a given finite list, because the search itself need not end.
- PoolObject.TryClaim: asks that the queue is not empty when the ticket matches, which the step system proves of every reachable state.
- Number texts: only plain digit strings; the signs, blanks, prefixes and leading-zero rules of the stream reader are not modelled.
- AccountText: the BLAKE2b digest is any function cut to 40 bits; only vxld texts are proved canonical, since node_ texts have no fixed length.
- FormatBalance: scales are powers of ten, as all the units in numbers.hpp are; the locale lookup is a parameter.
- FormatDec: group sizes are any integers for the loops, positive for the grouping theorem.
- Floating point difficulty multipliers, Ed25519 signing, AES and key derivation.
- Blocks: hashing, signatures, comparison and the visitor classes; a JSON tree is a map from field names to texts, without the text form of JSON itself.
- BlockUniquer.Uniquer.Unique: a null block, which the source returns as it is, and hash collisions between different contents.
- TokenBucket.TokenBucket.Refill: exact arithmetic, where the source multiplies in double precision; size_t overflow is not modelled.
- SendQueue: sockets, timeouts, the resolver and the payloads; messages are numbers.
- TimedLocks: reports of long-held mutexes and the filter on mutex names; timer children and pauses; a duration is a difference of integers.
- TimedLocks.UniqueLock.AcquireLock: the object method is given the mutex free, since it blocks until then; blocking and sleeping are steps of their own in the run theorems. condition_variable_any is taken to unlock and lock through the lock it is given, as the C++ standard says, although a comment in locks.hpp expects otherwise.
- TimedLocks: which thread owns a mutex is not tracked, so unlocking from another thread is not told apart.
- RepWeights: accounts are numbers; copying a table into itself, which would lock its mutex twice, is excluded.
- BlockBuilder: a text setter is given its decoder's result; the decoders are proved in the text modules. The assertion of the build without an error argument is not modelled.
- Configuration, TLS, logging, statistics, thread pools, memory pools, error message tables and enum names.
