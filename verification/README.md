# The CX180 client link, in Dafny

This project models the client library under `clientbase/`: the framed stop-and-wait link between a
client and its peer, the MD5 digest that guards each frame, and the bounded queue that hands received
events to the application. Each layer is proved against a definition simpler than the code, and the
layers are connected.

* **Digest** (`Words`, `Md5Rounds`, `Md5Spec`, `Md5Checksum`). `Md5Checksum.Context` is the streaming
  context, updated in place; its methods are proved against `Md5Spec.Digest`, which pads, splits, folds
  and encodes as sections 3.1 to 3.5 of RFC 1321 say. The unrolled rounds equal the RFC's table-driven
  step, and for every block the 64 steps are a bijection. A word is a number below 2^32 with C's
  operators defined on it bit by bit; wrap-around is always explicit.
* **Frames and the receive thread** (`Frames`, `Handling`, `ClientBase`). `Frames.Parse` reads a whole
  byte stream as a list of items, and `Handling` says what each item does to the client. `ClientBase.Client`
  is the client with its fields and its 64 KiB receive buffer; its receive loop runs against an arbitrary
  schedule of arrivals, time-outs, stops and failures, and is proved to handle exactly the items of the
  bytes it received, whatever the schedule.
* **The link** (`Link`, `LinkBytes`, `TwoClients`, `Exchanges`). Two parties, each sending and receiving at
  once, over two FIFO channels that may spoil payloads under an intact header; sends, answers and resends
  may fail. `LinkBytes` proves that the client's receive thread, fed the peer's channel in any pieces,
  carries out exactly the steps of this protocol. `TwoClients` puts two clients over two byte channels,
  with the steps of `Send`, of the receive thread and of `Receive`'s initialisations interleaved and
  frames received in any pieces: every run is a run of the link, so each client dispatches exactly what the other sent, in
  order and once each. `Exchanges` follows one frame from `Send` to its acknowledgement.
* **Waits** (`Wakeup`, `ReceiveWait`, `ConnectWait`). `Send`, `Receive` and `Connect` against the receive
  thread that wakes them, with their flags, mutexes and condition variables, under every interleaving and
  spurious wakes.
* **Lock order** (`LockOrder`). A static check of nested mutexes, its soundness for any number of
  interleaved threads, and the check of every thread of the client.
* **Events** (`EventQueue`, `EventExecuter`). The doubly linked queue with its deep copies and stale end
  pointer refines a bounded FIFO sequence; producers and the executer conserve events in every interleaving.

`dafny verify dfyconfig.toml` checks the whole project.

## What turned out false, and when it holds

* `MD5Update` tests `i + 63 < inputLen` modulo 2^32. The test is right if and only if the bytes waiting in
  the buffer plus `inputLen` stay below 2^32 (`Md5Checksum.UpdateBoundIsExact`); that sum is the
  precondition of `Update`. `MDBytes` starts with nothing waiting, so it is correct for every length an
  `unsigned int` holds.
* A frame made by `CreateFrame` comes back from the receive loop as data if and only if its type is
  greater than 2 (`Frames.DataFrameComesBackIff`); types 0 to 2 are taken for replies and connections.
* `Send` without a time-out does not always wait for its reply: `pthread_cond_wait` stands in no loop, so
  any wake-up ends the wait. Nothing disturbing it is needed (`Wakeup.StaleBroadcastRun`): when the reply
  comes while the sender holds `_cond_obj`, the call returns true before the receive thread's broadcast,
  and that broadcast ends the next call. Without spurious wakes and failures, a call can return before its
  reply if and only if it is made while the receive thread stands between setting the flag for the call
  before and taking `_cond_obj` (`Wakeup.CallCanReturnEarlyIff`); in every run in which no call is made
  then, every call waits for its reply (`Wakeup.CallsWaitForReplies`). A spurious wake also ends a call
  (`Wakeup.SpuriousWakeEndsCall`). What a call returns after a wake is true if and only if its own frame
  has been acknowledged by then (`Wakeup.FinalTestIsExact`).
* The executer can exit with an accepted event undelivered (`EventExecuter.LastEventCanBeLost`). Stopped at
  any point, with no more events offered, it delivers everything if and only if its thread is not then
  testing the run flag with events queued (`EventExecuter.StopDeliversAllIff`).
* The receive loop does not compare a declared length with its 64 KiB buffer. A received byte is written
  as many places into the buffer as there are bytes of its frame before it, and the loop goes past the end
  exactly when that is too far (`ClientBase.Client.Run`); on a stream received to its end it does so if and
  only if the stream does not fit (`ClientBase.FitsIff`), and a frame made by `Send` fits if and only if its
  payload is at most 65504 bytes long (`ClientBase.DataFrameFitsIff`).
* `Receive` can report success without a frame of the type it named, even without a spurious wake: if and
  only if it names type 0 or, when it initialises its slot, the receive thread stands between matching a
  frame of another type and filling the slot, or between filling it and taking the mutex
  (`ReceiveWait.ReceiveCanGiveWrongIff`). So a frame that comes as one call times out is given to the next
  (`ReceiveWait.LateFrameReachesNextCall`).

## Model

| member | source | states |
|---|---|---|
| Words.RotateBack | clientbase/md5checksum.h:56-57 | rotating a word left by n and then by 32 - n gives it back, for every word and n |
| Words.RotateLeftExact | clientbase/md5checksum.h:56-57 | as arithmetic, rotation moves the low 32 - n bits up by n and brings the high n bits in below |
| Words.OperatorBits | clientbase/md5checksum.h:51-54 | C's and, or, exclusive or and complement act on each of the 32 bits as they should |
| Words.OrOfDisjointBits | clientbase/md5checksum.cpp:182-185 | or-ing numbers that share no bits adds them, which is what makes the shifted-and-or-ed bytes of a word its value |
| Words.MaskTakesLowBits | clientbase/md5checksum.cpp:168-171 | masking with k ones is the remainder by 2^k |
| Words.DecodeEncode | clientbase/md5checksum.cpp:162-187 | a word's four little-endian bytes give the word back |
| Words.EncodeDecode | clientbase/md5checksum.cpp:162-187 | and four bytes read as a word are written back unchanged |
| Md5Rounds.Round1 | clientbase/md5checksum.cpp:80-96 | the 16 unrolled FF statements with rotating register roles are steps 1 to 16 of the RFC's table |
| Md5Rounds.Round2 | clientbase/md5checksum.cpp:98-114 | the GG statements are steps 17 to 32 |
| Md5Rounds.Round3 | clientbase/md5checksum.cpp:116-132 | the HH statements are steps 33 to 48 |
| Md5Rounds.Round4 | clientbase/md5checksum.cpp:134-150 | the II statements are steps 49 to 64 |
| Md5Rounds.RoundFunctionBits | clientbase/md5checksum.h:51-54 | bit by bit, F chooses y or z by x, G chooses x or y by z, H is the parity of all three and I that of y and of x or not z |
| Md5Rounds.StepThenUnstep | clientbase/md5checksum.h:59-83 | a constructed inverse undoes each step, for every block |
| Md5Rounds.UnstepThenStep | clientbase/md5checksum.h:59-83 | and each step undoes the inverse |
| Md5Rounds.StepsArePermutation | clientbase/md5checksum.cpp:80-150 | for every block, any number of leading steps is a bijection on the 128-bit register states |
| Md5Spec.FoldConcat | clientbase/md5checksum.cpp:28-47 | folding complete blocks and then more bytes is folding their concatenation |
| Md5Spec.CountAdvances | clientbase/md5checksum.cpp:19-24 | the two-word counter with its carry test goes from the bit length of the message to that of the longer message, modulo 2^64 |
| Md5Spec.LengthModBlock | clientbase/md5checksum.cpp:16-17 | the counter's low word, shifted and masked, is the number of bytes waiting, for messages of any length |
| Md5Spec.ZerosNeededIsLeast | clientbase/md5checksum.cpp:58-61 | no shorter padding ends 8 bytes short of a block |
| Md5Checksum.Encode | clientbase/md5checksum.cpp:161-173 | writes the words' little-endian bytes |
| Md5Checksum.Decode | clientbase/md5checksum.cpp:175-187 | the shifted-and-or-ed bytes are the block's little-endian words |
| Md5Checksum.Transform | clientbase/md5checksum.cpp:72-159 | the state becomes the RFC's compression of the old state with the block |
| Md5Checksum.Context.constructor | clientbase/md5checksum.cpp:3-10 | a fresh context stands for the empty message |
| Md5Checksum.Context.Index | clientbase/md5checksum.cpp:16-17 | the index read off the counter is the length of the leftover |
| Md5Checksum.Context.AddToCount | clientbase/md5checksum.cpp:19-24 | the counter becomes the longer message's bit length modulo 2^64 |
| Md5Checksum.Context.AbsorbBlocks | clientbase/md5checksum.cpp:34-37 | the loop, with its test computed modulo 2^32, folds every whole block of the rest of the input and stops within the input |
| Md5Checksum.Context.Update | clientbase/md5checksum.cpp:12-48 | after any updates the state is the fold of the complete blocks, the live buffer prefix is the leftover and the count is the bit length, all of the concatenated input; so updating with a and then b is updating with a ++ b |
| Md5Checksum.LoopTestExact | clientbase/md5checksum.cpp:34-37 | the loop test is right if and only if i plus the bytes that waited stays below 2^32 |
| Md5Checksum.UpdateBoundIsExact | clientbase/md5checksum.cpp:29-37 | at the last whole block the test goes on, beyond the input, if and only if the bytes waiting and the input reach 2^32 |
| Md5Checksum.Context.Final | clientbase/md5checksum.cpp:50-70 | writes the RFC 1321 digest of everything absorbed, padding to 56 and with the length from before padding, and leaves nothing but zeros in the context |
| Md5Checksum.MDBytes | clientbase/md5checksum.cpp:212-223 | returns the RFC 1321 digest of the bytes, for every length an unsigned int holds |
| Frames.HeaderFields | clientbase/clientcommon.h:43-64 | the digest, flag, length and type written into a header are read back from it |
| Frames.HeaderBytes | clientbase/clientcommon.h:43-64 | the header byte by byte: digest, the five letters and three zeros of the flag, length and type with the lowest byte first |
| Frames.BytesToItem | clientbase/clientbase.cpp:110-135 | what a header's bytes mean to the receive loop: noise, a positive reply for type 0, a negative one for 1, a connect message for 2, and data of the declared length above |
| Frames.ReplyBytes | clientbase/clientbase.cpp:1300-1307 | the 32 bytes of either reply |
| Frames.CreateFrame | clientbase/clientbase.cpp:1320-1358 | the buffer is the header with the digest of everything after it, then the payload; null exactly for a null pointer with a positive length |
| Frames.ParseResumes | clientbase/clientbase.cpp:48-193 | parsing may stop after any bytes whatever and resume from what was left over: the items are the same |
| Frames.ParseOfPrefix | clientbase/clientbase.cpp:48-193 | the items of a prefix of the stream are a prefix of its items |
| Frames.RestIsIncomplete | clientbase/clientbase.cpp:48-193 | what is left over holds no complete item |
| Frames.DataFrameComesBackIff | clientbase/clientbase.cpp:110-199 | a created frame parses back as itself with its digest verified if and only if its type is above 2 |
| Frames.MessageComesBack | clientbase/clientbase.cpp:1300-1307 | so do single replies and connect frames |
| Frames.StreamComesBack | clientbase/clientbase.cpp:108-199 | any concatenation of data, reply and connect frames parses back to exactly that list, every digest check passing, nothing left over |
| Frames.NoiseIsTransparent | clientbase/clientbase.cpp:110-115 | 32-byte blocks without the flag, any number at any frame boundaries, change neither the other items nor the rest |
| Handling.NoReplyIsPending | clientbase/clientbase.cpp:1284-1317 | at each frame boundary no digest is waiting to be answered, so a forced disconnection sends no stray reply |
| Handling.PeerReadsOneReplyPerFrame | clientbase/clientbase.cpp:194-217 | the peer, parsing what is sent back, reads one reply per completed data frame, in order, echoing its digest, positive exactly when the check passed, among the frames resent |
| Handling.UnmatchedFramesBecomeEvents | clientbase/clientbase.cpp:199-208 | while no verified frame has the awaited type, the slot waits and every verified frame becomes an event, in order |
| Handling.IdleSlotNeverMatches | clientbase/clientbase.cpp:120-135 | the idle type 0 matches nothing the parser yields |
| Handling.SlotTakesFirstMatch | clientbase/clientbase.cpp:375-424 | between two initialisations the slot takes the first verified frame of the awaited type, exactly one, and all others become events, in order |
| Handling.InitialisedSlot | clientbase/clientbase.cpp:375-424 | after an initialisation the slot holds the first verified frame of its type, or stays empty, whatever it held before; every other verified frame becomes an event |
| Handling.EachRoundFillsItsSlot | clientbase/clientbase.cpp:299-424 | through any number of initialisations mixed with frames, each leaves its slot as if it were the only one, and every verified frame is taken by one slot or becomes an event, in order |
| Handling.CheckDispatches | clientbase/clientbase.cpp:194-208 | each frame checked is dispatched, if verified, to exactly one of slot and executer, and the order of all dispatched frames is kept |
| Handling.NoiseHasNoEffect | clientbase/clientbase.cpp:110-115 | noise at frame boundaries changes no dispatch, reply, resend or wake-up |
| Handling.MessagesBecomeEvents | clientbase/clientbase.cpp:137-211 | any list of messages from a peer becomes exactly the events of its data frames, in order |
| ClientBase.Network.Recv | clientbase/clientbase.cpp:169-192 | receives between one and the wanted number of bytes, copies those that have room to their place and touches nothing before it |
| ClientBase.Client.Reply | clientbase/clientbase.cpp:1284-1317 | sends the reply for the pending digest and clears it, or does nothing |
| ClientBase.Client.DealReplyMessage | clientbase/clientbase.cpp:1206-1281 | a matching positive reply sets the flag and wakes the sender, a matching negative one resends, anything else does nothing |
| ClientBase.Client.DealHeader | clientbase/clientbase.cpp:110-135 | a header that is noise, a reply or a connect message is dealt with at once; only a data frame's is left |
| ClientBase.Client.CheckFrame | clientbase/clientbase.cpp:194-199 | true exactly when the RFC 1321 digest of everything after the header's digest equals it |
| ClientBase.Client.DealDataFrame | clientbase/clientbase.cpp:194-217 | a checked frame goes to the slot or the executer and is answered positively, a failing one is answered negatively; if the socket has been closed the answer stays pending |
| ClientBase.Client.DisconnectForcibly | clientbase/clientbase.cpp:808-832 | wakes the sender once, stops the thread, answers a pending frame positively, closes the socket; refuses a closed one |
| ClientBase.Client.StartSend | clientbase/clientbase.cpp:873-920 | starts exactly when the socket is open, the flag is set, the frame can be made and goes out; then the frame is kept, the flag cleared and the frame on the wire; a frame that does not go out is kept all the same and the flag stays cleared; a timed-out predecessor forces a disconnection |
| ClientBase.Client.InitReceiveDataAndType | clientbase/clientbase.cpp:375-386 | from then on, whatever frames are handled, the slot ends up with the first verified one of the named type or empty, and exactly the others become events (by `Handling.InitialisedSlot`) |
| ClientBase.Client.Poll | clientbase/clientbase.cpp:139-192 | one pass of the stop check, select and recv: where the bytes go, which event causes which exit, and an overrun exactly when the bytes received go past the buffer |
| ClientBase.Client.ReceiveInto | clientbase/clientbase.cpp:137-193 | every byte received stands at its place in the buffer, also when the thread leaves, unless one has no place there; otherwise exactly the wanted stretch is filled, or the thread leaves before |
| ClientBase.Client.ReceiveData | clientbase/clientbase.cpp:137-217 | receives the declared payload and handles the frame, leaves before the payload is whole, or overruns the buffer |
| ClientBase.Client.ReceiveFrame | clientbase/clientbase.cpp:48-218 | one pass of the outer loop receives and handles one whole frame, or leaves in the middle of one, which then stands at the start of the buffer; it overruns exactly when it receives more of a frame than the buffer holds |
| ClientBase.Client.Run | clientbase/clientbase.cpp:25-224 | for every stream and every schedule of pieces, time-outs, stops and failures the thread handles exactly the parsed items of the bytes received, leaves an incomplete last frame alone, exits only for a cause in the schedule, reports a failing recv as a socket error and a failing select or a closing peer as a closed server, and receives a byte per arrival until the stream is used up; it overruns its buffer exactly when a received byte has no place there, and, on a stream received to its end, exactly when the stream does not fit |
| ClientBase.EnoughArrivals | clientbase/clientbase.cpp:52-193 | a thread that has left without an overrun received the whole rest of the stream if as many arrivals came before any stop or failure |
| ClientBase.FitsIff | clientbase/clientbase.cpp:137-193 | every byte of a stream has its place in the 65536-byte buffer, which is the number of bytes of its frame before it, if and only if what there is of each frame fits |
| ClientBase.DataFrameFitsIff | clientbase/clientbase.cpp:30-30 | a frame that `Send` makes fits its receiver's buffer if and only if its payload is at most 65504 bytes long |
| Link.OwnTokens | clientbase/clientbase.cpp:1207-1281 | how each step of a party moves, creates or ends the token of its own frames |
| Link.PeerTokens | clientbase/clientbase.cpp:194-217 | how each step moves the token of the peer's frames |
| Link.OwnDirectionKept | clientbase/clientbase.cpp:873-983 | every step of a party keeps the one-token invariant of the frames it sends |
| Link.PeerDirectionKept | clientbase/clientbase.cpp:194-217 | and of the frames it receives |
| Link.AtMostOneToken | clientbase/clientbase.cpp:873-983 | in every run of both parties at once, each direction has at most one frame in transit, being verified, or its reply on the way, and none while the flag is true; through time-outs, failed sends, answers and resends |
| Link.ExactlyOnceInOrder | clientbase/clientbase.cpp:1207-1281 | in every run, whatever fails to go out, the frames the peer has dispatched are the acknowledged ones, in order and once each, plus at most the one outstanding |
| Link.WaitEndsDelivered | clientbase/clientbase.cpp:939-983 | a Send that waits and finds the flag true has had its own frame handed on, as the last one, by the peer |
| Link.ChannelsHoldWhatWasSent | clientbase/clientbase.cpp:909-911 | each channel holds the last messages sent, in order, each unchanged or spoilt so that the digest check refuses it |
| Link.OwnStepDoesNotDelay | clientbase/clientbase.cpp:873-983 | no step of the sender but a spoiling takes the token further from its acknowledgement, and the helpful one brings it nearer |
| Link.PeerStepDoesNotDelay | clientbase/clientbase.cpp:194-217 | nor does a step of the receiver |
| Link.SpoilingIsPaidFor | clientbase/clientbase.cpp:212-216 | a spoiling uses up one of k and takes the token back by less than one is worth |
| Link.HelpfulStepIsEnabled | clientbase/clientbase.cpp:1243-1254 | while a frame is outstanding its helpful step is possible |
| Link.ResendingEnds | clientbase/clientbase.cpp:1243-1254 | with at most k spoilings a frame stays outstanding for at most 56k + 101 helpful moves, in any interleaving with the other direction |
| Link.MoveIsSteady | clientbase/clientbase.cpp:1243-1254 | a move that neither is the helpful one nor brings the frame nearer leaves the same move helpful |
| Link.FairRoundsEnd | clientbase/clientbase.cpp:1243-1254 | under weak fairness, with at most k spoilings, a frame is acknowledged within 56k + 101 rounds unless it or its reply fails to go out |
| Link.AcknowledgementIsReachable | clientbase/clientbase.cpp:1243-1254 | from every reachable state the helpful moves lead to the acknowledgement of exactly the outstanding frame |
| LinkBytes.OneMessage | clientbase/clientbase.cpp:110-199 | a message's bytes parse to one item, which passes the digest check exactly if its payload is intact |
| LinkBytes.ItemIsThreeSteps | clientbase/clientbase.cpp:110-217 | for a client at any point of its run, a Receive waiting or not, handling one parsed item is receiving, checking and answering, or receiving, looking up and acting, in the link |
| LinkBytes.SendIsThreeSteps | clientbase/clientbase.cpp:898-911 | a send that starts is the link's three sending steps, byte for byte |
| LinkBytes.LoopRunsTheLink | clientbase/clientbase.cpp:48-218 | handling the bytes of any number of the peer's messages is a run of the link, ending in the corresponding state |
| LinkBytes.WholeMessagesExact | clientbase/clientbase.cpp:52-193 | how many messages of a channel its first k bytes complete |
| LinkBytes.ItemsOfPrefix | clientbase/clientbase.cpp:48-193 | cut anywhere, even inside a header, a channel's bytes parse to the items of its complete messages |
| LinkBytes.ChannelFits | clientbase/clientcommon.h:19-20 | a channel whose payloads are at most 65536 - 32 bytes never overruns the receive buffer |
| LinkBytes.RunAsParty | clientbase/clientbase.cpp:25-224 | the receive thread over its byte buffer, fed the peer's channel in any pieces and with any time-outs, at any point of the client's run, leaves the client in the link state after attending to exactly the messages it completed; a failure disconnects it from that state |
| LinkBytes.ReachableLoopsRunTheLink | clientbase/clientbase.cpp:48-218 | so it is in every state of every run of the link |
| TwoClients.SendRefines | clientbase/clientbase.cpp:898-983 | each step of Send, keeping, clearing, sending or failing to, and returning, is that step of the link, byte for byte |
| TwoClients.OpenRefines | clientbase/clientbase.cpp:108-193 | when a frame's last piece has come, whatever the pieces, the receive thread holds exactly the first message of the other's channel |
| TwoClients.CheckRefines | clientbase/clientbase.cpp:194-208 | the digest check, and the hand-over to slot or executer, is the link's checking step |
| TwoClients.AnswerRefines | clientbase/clientbase.cpp:1284-1317 | the answer is the link's answering step, and an answer that does not go out is its failing |
| TwoClients.ActRefines | clientbase/clientbase.cpp:1206-1281 | dealing with a reply by the frame looked up before is the link's acting step, and a resend that does not go out is its failing |
| TwoClients.SpoiltIsMessage | clientbase/clientbase.cpp:194-199 | altering a payload in the bytes so that the digest check refuses it is spoiling that message of the link |
| TwoClients.WorldRunsTheLink | clientbase/clientbase.cpp:25-224 | every run of two clients over byte channels, step by step and piece by piece, from fresh connections, is a run of the link |
| TwoClients.BytesArriveExactlyOnce | clientbase/clientbase.cpp:137-211 | in every such run, through partial receipts, spoilings, resends, failed sends and Receives in both directions, each client has dispatched, to its slot and its executer together, exactly the frames the other's Send took on, in order and once each, but for at most the last, and all of them when none is outstanding |
| Exchanges.ReceiptHandles | clientbase/clientbase.cpp:48-218 | the steps that take a frame, check it and answer it, or look up and act on a reply, together do what the receive loop does with its item |
| Exchanges.SpoiltFrameArrives | clientbase/clientbase.cpp:1243-1254 | however many times in turn the bytes of a frame are spoilt, once let through it has been dispatched exactly once, the flag is true and nothing is left on its way |
| Exchanges.SendArrivesOnce | clientbase/clientbase.cpp:873-983 | so it is from the call of Send on |
| Exchanges.Exchange | clientbase/clientbase.cpp:873-983 | one client's Send, the other's receive thread on the bytes sent, and its own receive thread on the bytes that come back, in any pieces: the frame is dispatched once and the flag is true once all the bytes have come, which they have if enough arrivals precede a stop or failure; both clients stand for the link's parties afterwards |
| Wakeup.StepKeepsInv | clientbase/clientbase.cpp:873-983 | every step of sender, receive thread and peer keeps the mutex, token and owed-broadcast invariant |
| Wakeup.NoLostWakeup | clientbase/clientbase.cpp:1174-1220 | in every interleaving, a sender asleep while the flag is true is owed a broadcast that two enabled steps of the receive thread deliver |
| Wakeup.TrueMeansAcknowledged | clientbase/clientbase.cpp:939-983 | Send returns true only if a matching positive reply answered the frame of that very call, spurious wakes and equal digests notwithstanding |
| Wakeup.TrueMeansAnswered | clientbase/clientbase.cpp:1206-1254 | in every run in which Send returns true, the peer has at some step answered the frame of that very call, then on its way, positively |
| Wakeup.ReplyIsMatched | clientbase/clientbase.cpp:1206-1254 | a reply counts only against the frame kept when it was looked up: another digest changes nothing, a positive match leads to the flag, a negative one to the resend |
| Wakeup.FailingCallReturnsFalse | clientbase/clientbase.cpp:914-972 | a call whose frame does not go out, or whose clock or wait fails, returns false and gives up the mutex |
| Wakeup.FinalTestIsExact | clientbase/clientbase.cpp:979-982 | what Send returns after sleeping is true if and only if its frame has been acknowledged by then |
| Wakeup.NoDeadlock | clientbase/clientbase.cpp:909-982 | while a call is in progress some step other than a time-out, failure or spurious wake is possible |
| Wakeup.SpuriousWakeEndsCall | clientbase/clientbase.cpp:972-982 | a run in which a spurious wake ends a call with false before any reply |
| Wakeup.CallsWaitForReplies | clientbase/clientbase.cpp:909-983 | in every run without spurious wakes and failures in which no call finds a broadcast still owed, every call returns true, and its frame has been acknowledged |
| Wakeup.CallCanReturnEarlyIff | clientbase/clientbase.cpp:1218-1220 | from every reachable state a call, undisturbed, can return before its reply if and only if the receive thread stands between setting the flag and taking the mutex of the condition |
| Wakeup.StaleBroadcastRun | clientbase/clientbase.cpp:939-982 | a run, with no spurious wake and no failure, in which the broadcast for one call ends the next before any reply |
| ReceiveWait.NoLostWakeup | clientbase/clientbase.cpp:299-424 | in every interleaving, a Receive asleep while its slot is filled is owed a broadcast that two enabled steps of the receive thread deliver |
| ReceiveWait.ReceiveCanGiveWrongIff | clientbase/clientbase.cpp:299-424 | a Receive can report success without a frame of its type, no spurious wake helping, exactly if it names type 0 or initialises its slot while the receive thread has a frame of another type to put there or a broadcast to make |
| ReceiveWait.ReceiveReturnsExactly | clientbase/clientbase.cpp:299-373 | a Receive that begins with nothing stale, without spurious wakes and a failing clock, gives exactly the frame put into its slot before it returns, of its own type, also after a time-out, and fails if there was none |
| ReceiveWait.TimedOutCallLooksAgain | clientbase/clientbase.cpp:335-362 | after a time-out the call fails if and only if its slot is still waiting, and otherwise gives what the slot holds |
| ReceiveWait.SpuriousWakeGivesNothing | clientbase/clientbase.cpp:335-372 | a run in which a spurious wake makes a call report success with nothing |
| ReceiveWait.LateFrameReachesNextCall | clientbase/clientbase.cpp:199-204 | a run in which a frame matched for a call that times out is given to the next call, of another type |
| ConnectWait.NoLostWakeup | clientbase/clientbase.cpp:719-746 | Connect never sleeps through an announcement of a connect message, since it holds the mutex from before its receive thread exists until it waits |
| ConnectWait.ConnectedMeansHeard | clientbase/clientbase.cpp:746-757 | without spurious wakes Connect reports success only after a connect message |
| ConnectWait.ConnectsIff | clientbase/clientbase.cpp:719-757 | Connect reports success if and only if its thread was created, the clock read and the wait not timed out |
| ConnectWait.ConnectionIsMade | clientbase/clientbase.cpp:719-757 | a run in which the connect message, heard during the wait, ends it with success |
| LockOrder.StepKeepsOrder | clientbase/clientbase.cpp:909-979 | the lock-order check is sound: every step of a checked thread leaves a checked thread |
| LockOrder.NoWaitCycle | clientbase/clientbase.cpp:909-979 | no reachable state of any checked threads has a cycle of threads waiting for each other's mutexes |
| LockOrder.Progress | clientbase/clientbase.cpp:1360-1369 | unless all threads are done or asleep on conditions, one of them can take a step |
| LockOrder.UsesAreOrdered | clientbase/clientbase.cpp:299-373 | Send, Receive, Connect, Disconnect, SetSocket, IsSendSucceeded, KeepReceiving, DisconnectForcibly and Reply pass the check on all their paths |
| LockOrder.ThreadsAreOrdered | clientbase/clientbase.cpp:25-224 | so do the receive thread and the executer's thread, with handlers that use the client |
| LockOrder.ClientThreadsNeverDeadlock | clientbase/clientbase.cpp:719-795 | any number of users beside the receive thread and the executer never wait for each other in a cycle, and some thread can go on unless all are done or asleep |
| LockOrder.SendPath | clientbase/clientbase.cpp:879-982 | Send's main path takes and releases exactly these mutexes in this order, sending and testing the flag under the condition's mutex |
| LockOrder.ReceivePath | clientbase/clientbase.cpp:299-373 | likewise Receive's |
| LockOrder.ConnectPath | clientbase/clientbase.cpp:546-758 | likewise Connect's |
| LockOrder.DisconnectPaths | clientbase/clientbase.cpp:761-832 | likewise those of Disconnect, DisconnectForcibly, Reply and SetSocket |
| LockOrder.DealingPaths | clientbase/clientbase.cpp:1206-1281 | likewise those of dealing with a reply, a data frame and an event |
| EventQueue.ReceivedData.Copy | clientbase/eventqueue.h:52-68 | a deep copy, sharing nothing: same type, same length, and the same bytes whenever there are any |
| EventQueue.OneEvent | clientbase/eventqueue.cpp:41-96 | what is put into an empty queue is taken out with the same type, length and bytes |
| EventQueue.ValueIsFields | clientbase/eventqueue.h:25-68 | events of the same value agree in type, length and bytes, and conversely |
| EventQueue.DataNode.constructor | clientbase/eventqueue.h:25-42 | the node owns a fresh copy of the data it was given, or an empty payload for a null pointer |
| EventQueue.Queue.constructor | clientbase/eventqueue.cpp:32-39 | a new queue is empty |
| EventQueue.Queue.Append | clientbase/eventqueue.cpp:50-66 | linking a node at the end keeps forward and backward links mutually inverse, even when the end pointer was stale |
| EventQueue.Queue.Enqueue | clientbase/eventqueue.cpp:41-70 | refines appending to a sequence bounded by the maximum: refused exactly when full, otherwise a copy is last; a null pointer queues an event without payload |
| EventQueue.Queue.Detach | clientbase/eventqueue.cpp:85-92 | unlinking the first node keeps the links mutually inverse |
| EventQueue.Queue.Dequeue | clientbase/eventqueue.cpp:72-96 | refines taking the first: null exactly when empty, otherwise a fresh copy of it; that node and no other is deleted |
| EventQueue.Queue.GetCount | clientbase/eventqueue.cpp:98-106 | the count is the length of the contents |
| EventQueue.Queue.Destroy | clientbase/eventqueue.cpp:13-30 | the destructor terminates, deletes every node once and in order, and follows no link of a deleted node |
| EventExecuter.Executer.Execute | clientbase/eventexecuter.cpp:76-90 | queues a copy of the event, or an event without payload for a null pointer, or drops it when 256 are queued |
| EventExecuter.Executer.DoEvent | clientbase/eventexecuter.cpp:110-124 | raises the first queued event and reports whether there was one |
| EventExecuter.Executer.DoEvents | clientbase/eventexecuter.cpp:25-28 | the inner loop raises everything queued, in order, and ends at the empty queue |
| EventExecuter.StepKeepsInv | clientbase/eventexecuter.cpp:16-33 | every step of producers and thread conserves events |
| EventExecuter.EventsAreConserved | clientbase/eventexecuter.cpp:76-124 | in every interleaving, delivered events, the event in hand and the queue are the accepted events in order, the accepted being exactly those that found fewer than 256 queued |
| EventExecuter.ExitKeepsTheRest | clientbase/eventexecuter.cpp:16-33 | an executer that has exited has delivered exactly the events accepted before its last look at an empty queue, and the others are still queued |
| EventExecuter.StopDeliversAllIff | clientbase/eventexecuter.cpp:53-74 | stopped in any state, with no more events offered, the executer exits with everything accepted delivered if and only if its thread was not then testing the run flag with events queued |
| EventExecuter.StoppedInTimeDeliversAll | clientbase/eventexecuter.cpp:16-33 | an executer stopped while it waits or drains its queue goes on to deliver every accepted event and exits |
| EventExecuter.LastEventCanBeLost | clientbase/eventexecuter.cpp:16-33 | a run in which an event accepted just before the stop is never delivered |
| EventExecuter.DrainDeliversAll | clientbase/eventexecuter.cpp:25-28 | a woken executer left to itself delivers every event accepted so far and looks at its run flag again |

## Left out

- ClientBase.Client.Run: what the program does after an overrun of its buffer is not modelled; and other threads' accesses to the flag and the slot are taken to happen between runs, as the `Handling` lemmas do; `TwoClients` and `ReceiveWait` interleave them.
- ClientBase.Network.Recv: may return nothing when the peer has sent no more yet; `recv` returning 0, which the code takes for a closed connection, is the event `PeerClosed` of the schedule.
- ClientBase.Client.Reply: takes the reply to go out; one that does not is `AnswerFails` of `TwoClients` and `Link`.
- ClientBase.Client.DealReplyMessage: takes a resend to go out; one that does not is `ResendFails` of `TwoClients` and `Link`.
- ClientBase.Client.StartSend: lengths from 2^32 - 32 on are excluded, as in `Frames.CreateFrame`.
- Frames.CreateFrame: lengths from 2^32 - 32 on are excluded, where the size of the buffer wraps around and the copy runs past it.
- LinkBytes.RunAsParty: takes the peer's payloads to fit the receive buffer.
- Handling.PeerReadsOneReplyPerFrame: takes `send` to transmit everything; answers that fail to go out are treated in `TwoClients`.
- Link.ExactlyOnceInOrder: takes the peer to be this library, spoiled payloads to fail the digest check, and headers to arrive intact; a send goes out whole or not at all.
- TwoClients.BytesArriveExactlyOnce: takes the types sent to be above 2, since frames of other types are not taken for data (`Frames.DataFrameComesBackIff`), spoilings to keep a payload's length, and payloads to fit the receive buffer (`ClientBase.DataFrameFitsIff`), whose bound `TwoClients` does not have.
- TwoClients.CheckRefines: the test of the awaited type and the filling of the slot are one step there; `ReceiveWait` takes them apart.
- Exchanges.Exchange: takes the frame to go out, its type to be above 2 and its payload to fit the receive buffer.
- Md5Checksum.Transform: the zeroising of its scratch words is left out.
- Wakeup.NoLostWakeup: nothing is claimed about waking a sender on disconnection, whose broadcast may come before the wait.
- Wakeup.FinalTestIsExact: the last test returns false on a closed socket, so an acknowledged call can return false after a disconnection; the socket stays open in `Wakeup`.
- The refusal of a Send call while an earlier frame is unacknowledged is in `ClientBase.Client.StartSend`; the protocols of `Link` and `Wakeup` have no step for it, since it changes nothing there.
- Several threads calling `Send` at once, `DisconnectForcibly` from another thread during a reply, `SetSocket` without the resets of `Connect`, and an old receive thread that outlives a reconnection.
- `SimpleSend` for types other than the connect message.
- `Receive` is modelled for one calling thread at a time, and `Connect` from the creation of its receive thread on.
- Lossless event delivery: an event dropped by a full queue is still answered positively.
- `OnSocketError` calling back into the client from inside `Send`; handlers called from the receive thread and the executer may use the client.
- Socket set-up, time as such, signals and printing; select, recv and time-outs appear as events of a schedule.
- The memory model: every access to a flag under its own mutex is one atomic step, and the run flags are read atomically.
- `UINT4` is taken as the four-byte word its comment describes; a 64-bit `unsigned long` would break the rotation.
- Releasing memory, except that the queue deletes each node once.
- `MD5Data`, a second copy of `MDBytes`, and the EEPROM tool, the service wrapper and the makefiles.
