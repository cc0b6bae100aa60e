# ZeroMQ's message plumbing, modelled and proved in Dafny

The models follow the vendored ZeroMQ 3.2.3 library that carries this repository's traffic: the
pipes between sockets and their shutdown, the queues and mailboxes below them, the tree of objects
that own each other, the subscription tries with the XSUB and XPUB sockets on top, the pipe
schedulers with shared messages, and the two framings of the wire protocol.

Two kinds of model stand side by side. Protocols between threads are state machines, and what is
proved holds in every interleaving of their steps. In `YPipe` and `Mailbox` a step is one atomic
access of the source; in `PipePair`, `OwnTree` and `PubSub`, whose objects belong to one thread at a
time, it is a whole call at one object or the delivery of one command. The classes of the source
are classes whose methods change fields as the source does; each is proved to turn the old state
into what the machine or the specification says, so that what is proved there holds of the objects.

- `Fifo`, `YPipe`, `YQueue`, `Mailbox`: the lock-free queue refines a FIFO; the chunk list refines
  a sequence; no wake-up is lost.
- `PipeEnd`, `PipePair`, `PipeTheorems`, `PipeDelivery`, `PipeObject`, `PipeObjects`: two ends of a
  pipe, their handshake, their flow control and what their users get, as values and as objects.
- `OwnTree`, `OwnProgress`, `OwnObject`: shutdown of the ownership tree.
- `Tree`, `Listing`: compact tries whatever they store. `Subscriptions`, `MTrie`: the relation
  between topics and pipes. `Topics`, `Trie`: the multiset of topics. `TrieNodes`: the linked nodes
  of both.
- `Streams`, `Sockets`, `PubSub`, `Misled`, `XPub`, `XSub`: subscriptions from end to end, and a run
  in which they go astray.
- `Wire`, `Framing`, `Encoder`, `Decoder`, `Codec`: both framings, under any fragmentation.
- `Message`, `PipeArray`, `Fanout`, `Dist`: shared messages and their distribution.
- `RoundRobin`, `Fairness`, `Schedulers`: fair queueing and load balancing.
- `Arrays`: the order of the items of an `array_t`. `Bytes`, `Options`, `Parts`: small types that
  several of these share.

The framings are those of ZMTP 1.0 and ZMTP 2.0 (RFC 13 and RFC 15 of the ZeroMQ project).

Some things in the source are not as one might expect; the models keep the source's behaviour and
state exactly when it meets the expectation.

- `dist_t::terminated` can take an active pipe for a passive one and the other way round
  (`Fanout.ErasedKeepsIff`, `Fanout.TerminatedLoses`). For an XSUB next to a pipe whose peer is
  closing, that means that a working pipe misses a subscription, and later may be told of the end of
  one that it never heard of, which fails an assertion at its publisher (`PubSub.StepInv`,
  `Misled.TerminationMisses`, `Misled.TerminationMisleads`).
- A pipe that is attached to an XSUB in the middle of a subscription message of several parts misses
  the next part (`PubSub.StepInv`).
- `dist_t::match` in the middle of a message can exchange an active pipe for one that is not
  (`Fanout.MatchMeans`); its only caller does not call it then.
- When a pipe that had its turn terminates, `fq_t` and `lb_t` move the last active pipe to its place,
  so that the round may end without a turn for that pipe (`Fairness.LeaveKeepsIff`,
  `Fairness.LeaveIsUnfair`); in the middle of a message the turn may even pass to another pipe
  (`RoundRobin.CurrentStaysIff`, `RoundRobin.CurrentIsLost`).
- Unsubscribing from a topic that only has longer topics below it reports a removal that never was
  (`Subscriptions.RmAsPromisedIff`, `Subscriptions.SpuriousRemoval`), which a peer that is not an
  XSUB can provoke (`Sockets.HearSoundIff`).
- A pipe that is given everything implicitly subscribes to the empty topic without a notification
  (`Sockets.AttachExactIff`).
- `terminate` with `delay` is said to process the pending messages first (`pipe.hpp:108-111`). That
  holds for an end whose peer asks (`PipeDelivery.NothingIsLost`); one that asks itself while active reads
  no more (`PipeDelivery.AskedReadsNoMore`, `PipeDelivery.AllIsReadIff`, `PipeDelivery.BothAsk`).
- The low watermark is said to be less than the high one; at a high watermark of 1 it is not
  (`PipeTheorems.Watermarks`), and nothing depends on it.

## Model

| member | source | states |
|---|---|---|
| `Fifo.HistoryMeaning` | pruebas/createContainer/zeromq-3.2.3/src/ypipe.hpp:74-165 | In every legal history of the abstract queue, the values read followed by those readable are the values flushed, those followed by the staged ones are the values of all finished writes, and the unfinished part is what was written since and not taken back. |
| `YPipe.StepRefines` | pruebas/createContainer/zeromq-3.2.3/src/ypipe.hpp:74-165 | With writer and reader interleaved at each access to the shared word, every atomic step is one step of the FIFO or invisible to it, keeps the invariant (outside a flush the word is NULL or marks the end of the flushed items), `flush` reports false exactly when it found the reader asleep, and a reader that was promised a value gets one. |
| `YPipe.RunIsFifo` | pruebas/createContainer/zeromq-3.2.3/src/ypipe.hpp:74-165 | In every interleaving the values read are a prefix of the values flushed, which are a prefix of the completed writes; nothing unfinished or taken back is ever seen. |
| `YPipe.YPipe.Write` | pruebas/createContainer/zeromq-3.2.3/src/ypipe.hpp:74-83 | Appends to the FIFO: an incomplete item stays unfinished, a complete one finishes all before it. |
| `YPipe.YPipe.Unwrite` | pruebas/createContainer/zeromq-3.2.3/src/ypipe.hpp:91-98 | Takes back exactly the last unfinished item, and nothing when there is none. |
| `YPipe.YPipe.Flush` | pruebas/createContainer/zeromq-3.2.3/src/ypipe.hpp:103-126 | Makes every finished item readable; false exactly when the reader was asleep, which it then no longer is. |
| `YPipe.YPipe.CheckRead` | pruebas/createContainer/zeromq-3.2.3/src/ypipe.hpp:129-150 | True exactly when something is readable; puts the reader to sleep when nothing is. |
| `YPipe.YPipe.Read` | pruebas/createContainer/zeromq-3.2.3/src/ypipe.hpp:154-165 | Takes the oldest readable item, or nothing when there is none. |
| `YQueue.YQueue.Push` | pruebas/createContainer/zeromq-3.2.3/src/yqueue.hpp:96-115 | The queue grows by one slot which `back` refers to; the list stays doubly linked with distinct chunks; only the push that fills a chunk takes the spare chunk or, without one, allocates one. |
| `YQueue.YQueue.SetBack` | pruebas/createContainer/zeromq-3.2.3/src/yqueue.hpp:90-93 | Writing through `back` changes the last element and no other. |
| `YQueue.YQueue.Unpush` | pruebas/createContainer/zeromq-3.2.3/src/yqueue.hpp:124-146 | Removes exactly the last slot; `back` refers to the new last one; a chunk that becomes empty is freed and not reachable any more. |
| `YQueue.YQueue.Front` | pruebas/createContainer/zeromq-3.2.3/src/yqueue.hpp:83-86 | Returns the first element. |
| `YQueue.YQueue.Pop` | pruebas/createContainer/zeromq-3.2.3/src/yqueue.hpp:149-164 | Removes exactly the first element; a used-up chunk becomes the spare one and the previous spare is freed; no chunk in use is ever freed or spare. |
| `Mailbox.NoLostWakeup` | pruebas/createContainer/zeromq-3.2.3/src/mailbox.cpp:25-86 | For any number of senders, interleaved with the receiver at each atomic step and for both kinds of signaler: no assertion fails, at most two signals coexist, and a passive receiver has something to read exactly when one signal is present or owed by a sender. |
| `Mailbox.DeliversInOrder` | pruebas/createContainer/zeromq-3.2.3/src/mailbox.cpp:50-86 | The receiver gets the commands once each, in the order in which they were sent under the lock; outside the lock what was sent is what was received plus what can be read. |
| `Mailbox.Mailbox.Send` | pruebas/createContainer/zeromq-3.2.3/src/mailbox.cpp:50-58 | Adds the command at the end of the pending ones. |
| `Mailbox.Mailbox.Recv` | pruebas/createContainer/zeromq-3.2.3/src/mailbox.cpp:60-86 | Takes the oldest pending command; fails exactly when there is none or a wait was interrupted; the read after a successful wait succeeds. |
| `PipeTheorems.ShutdownIsSafe` | pruebas/createContainer/zeromq-3.2.3/src/pipe.cpp:242-376 | In every interleaving of the two ends no handler meets a state that it asserts against, each end sends `pipe_term` at most once and `pipe_term_ack` at most once and last, and when an end deallocates itself nothing is in flight to it and its peer has let go of their queue. |
| `PipeTheorems.SilentAfterAck` | pruebas/createContainer/zeromq-3.2.3/src/pipe.cpp:190-198 | After its acknowledgement, or once its peer is gone, an end sends nothing and leaves the outbound queue alone, whatever is called on it. |
| `PipeTheorems.NeverStuck` | pruebas/createContainer/zeromq-3.2.3/src/pipe.cpp:316-376 | Once either end called `terminate`, both are deallocated, or a command is in flight, or a pending end can read on towards its delimiter. |
| `PipeTheorems.DriveLowersRank` | pruebas/createContainer/zeromq-3.2.3/src/pipe.cpp:242-314 | Every such step lowers a rank over both ends, the commands in flight and the unread items. |
| `PipeTheorems.NeverBackwards` | pruebas/createContainer/zeromq-3.2.3/src/pipe.cpp:316-376 | No step of anybody undoes progress of the handshake, and a shutdown that has begun stays begun. |
| `PipeTheorems.ReachesTheEnd` | pruebas/createContainer/zeromq-3.2.3/src/pipe.cpp:411-427 | From every state of a shutdown those steps alone lead to both ends being deallocated. |
| `PipeTheorems.Watermarks` | pruebas/createContainer/zeromq-3.2.3/src/pipe.cpp:383-409 | The low watermark lies between 1 and a positive high watermark, is at least half of it and at most 1024 below it; the comment there asks that it be less, which it is exactly when the high watermark is more than 1. |
| `PipeTheorems.WindowHolds` | pruebas/createContainer/zeromq-3.2.3/src/pipe.cpp:149-175 | The window is never overrun although only equality is tested, the count the writer knows trails the reader's, which trails the writer's, and no more whole messages wait than the high watermark allows. |
| `PipeTheorems.RefusesExactlyWhenFull` | pruebas/createContainer/zeromq-3.2.3/src/pipe.cpp:149-175 | An active end refuses a message exactly when as many whole messages as its high watermark are written and not known to be read. |
| `PipeTheorems.CreditIsComing` | pruebas/createContainer/zeromq-3.2.3/src/pipe.cpp:140-147 | A writer that is full although everything was read has a report with a larger count on its way. |
| `PipeTheorems.CreditResumes` | pruebas/createContainer/zeromq-3.2.3/src/pipe.cpp:208-217 | Processing such a report lets an active writer write. |
| `PipeTheorems.FlowControlHolds` | pruebas/createContainer/zeromq-3.2.3/src/pipe.cpp:140-175 | In every run both directions keep their windows, and a writer that is full although everything was read has a report with a larger count in flight to it. |
| `PipeTheorems.LaterPartsAccepted` | pruebas/createContainer/zeromq-3.2.3/src/pipe.cpp:149-175 | While the end is active, accepting a first part means accepting every later part of the message. |
| `PipeTheorems.CommittedUntil` | pruebas/createContainer/zeromq-3.2.3/src/pipe.cpp:164-188 | Only writing the last part, rolling back or terminating ends that situation. |
| `PipeTheorems.RollbackDropsParts` | pruebas/createContainer/zeromq-3.2.3/src/pipe.cpp:177-188 | `rollback` removes parts flagged `more` and nothing that was completed or flushed. |
| `PipeTheorems.NextPartIsThere` | pruebas/createContainer/zeromq-3.2.3/src/pipe.cpp:124-147 | A reader in the middle of a message gets its next part at once. |
| `PipeTheorems.ReadsWholeMessages` | pruebas/createContainer/zeromq-3.2.3/src/pipe.cpp:124-188 | What each end has read is the beginning of what the other completed: whole messages in order, at most one delimiter and nothing after it. |
| `PipeDelivery.GotWhatWasWritten` | pruebas/createContainer/zeromq-3.2.3/src/pipe.cpp:100-198 | In every run, what `read` returned to the user of one end is a beginning of what the user of the other end wrote, had accepted and did not take back: the same parts, with the same flags, in the same order. |
| `PipeDelivery.NothingIsLost` | pruebas/createContainer/zeromq-3.2.3/src/pipe.cpp:242-281 | In every run, an end created with `delay` and never terminated without it, which acknowledges because its peer asked, has read all that its peer completed, and its user got all that the other user wrote and completed. |
| `PipeDelivery.AllIsReadIff` | pruebas/createContainer/zeromq-3.2.3/src/pipe.cpp:242-376 | In every run, an end that has acknowledged, and whose peer asked, has read all that its peer completed exactly if none of its own steps gave up (it was terminated by its user while active, or without `delay` while pending, or was asked while active without `delay`); its user then got all that the other user wrote and completed. |
| `PipeDelivery.AskedWhileActive` | pruebas/createContainer/zeromq-3.2.3/src/pipe.cpp:242-257 | An active end that is asked to terminate goes on reading what it would have read, and acknowledges nothing yet, exactly with `delay`; without it acknowledges at once and reads no more. |
| `PipeDelivery.TerminatedWhilePending` | pruebas/createContainer/zeromq-3.2.3/src/pipe.cpp:337-346 | So does an end that was reading on when its own user terminates it, with the new value of `delay`. |
| `PipeDelivery.AskedReadsNoMore` | pruebas/createContainer/zeromq-3.2.3/src/pipe.cpp:316-330 | An end that has asked for termination takes nothing from then on, whatever `delay` is, so it loses what it had not read by then. |
| `PipeDelivery.BothAsk` | pruebas/createContainer/zeromq-3.2.3/src/pipe.cpp:316-330 | A concrete run: with `delay` at both ends, both ask, and a message that was written before is never read. |
| `PipeDelivery.ReadReturns` | pruebas/createContainer/zeromq-3.2.3/src/pipe.cpp:124-147 | `read` returns a part exactly if it takes this part, with its flag, and nothing if it takes nothing or the delimiter. |
| `PipeDelivery.CheckReadTells` | pruebas/createContainer/zeromq-3.2.3/src/pipe.cpp:100-122 | `check_read` is true exactly when `read` would return a part, and then changes nothing. |
| `PipeDelivery.WriteAppends` | pruebas/createContainer/zeromq-3.2.3/src/pipe.cpp:164-175 | A part that is accepted follows all that was accepted before; a refused one leaves no trace. |
| `PipeDelivery.FlushShows` | pruebas/createContainer/zeromq-3.2.3/src/pipe.cpp:190-198 | After `flush` all that is complete is readable and the unfinished message is not; a peer that slept is told. |
| `PipeDelivery.TerminateAsks` | pruebas/createContainer/zeromq-3.2.3/src/pipe.cpp:316-376 | An end that is not closing asks its peer, and ends its stream with one delimiter behind all that is complete, which becomes readable. |
| `PipeDelivery.LastAck` | pruebas/createContainer/zeromq-3.2.3/src/pipe.cpp:283-314 | The last acknowledgement empties the inbound queue, of which nothing counts as read; it is answered exactly by an end that asked and did not acknowledge yet. |
| `PipeDelivery.AskingDrops` | pruebas/createContainer/zeromq-3.2.3/src/pipe.cpp:269-277 | An active end that asks and is then asked has acknowledged without having read anything in between, with `delay` or without. |
| `PipeDelivery.ReadReportsCount` | pruebas/createContainer/zeromq-3.2.3/src/pipe.cpp:140-147 | Reading a part counts it if it is a last one, and reports the count exactly if it is a multiple of the low watermark. |
| `PipeDelivery.ReaderIsTold` | pruebas/createContainer/zeromq-3.2.3/src/pipe.cpp:200-206 | An end that finds nothing to read sleeps with its queue asleep; `activate_read` then wakes exactly that end, and it may read again. |
| `PipeDelivery.WriterIsTold` | pruebas/createContainer/zeromq-3.2.3/src/pipe.cpp:208-217 | An active end that refuses a message stops writing; the next `activate_write` records the count and resumes it. One that accepts stays as it is. |
| `PipePair.StepInv` | pruebas/createContainer/zeromq-3.2.3/src/pipe.cpp:100-376 | Every call and every delivery, at either end, keeps the invariant that joins the handshake, the streams, the wake-ups, the counters and the credit of the two ends. |
| `PipePair.CreateInv` | pruebas/createContainer/zeromq-3.2.3/src/pipe.cpp:29-51 | `pipepair` establishes it, with the watermarks crossed over. |
| `PipeObjects.Duplex.constructor` | pruebas/createContainer/zeromq-3.2.3/src/pipe.cpp:29-51 | Two pipe objects over two shared queues are the pair of ends that `PipePair` begins with. |
| `PipeObjects.Duplex.Act` | pruebas/createContainer/zeromq-3.2.3/src/pipe.cpp:100-376 | Every call at either object, and every delivery, is one step of that pair, and keeps both objects and the joint invariant; so what is proved of the pair holds of the objects. |
| `PipeObject.Pipe.Delimit` | pruebas/createContainer/zeromq-3.2.3/src/pipe.cpp:411-427 | The object over its two queues does what the model of one end says: an active end becomes delimited, a pending one acknowledges and waits to be deallocated. |
| `PipeObject.Pipe.CheckRead` | pruebas/createContainer/zeromq-3.2.3/src/pipe.cpp:100-122 | The object over its two queues does what the model of one end says: false puts the end to sleep or takes the delimiter. |
| `PipeObject.Pipe.Read` | pruebas/createContainer/zeromq-3.2.3/src/pipe.cpp:124-147 | The object over its two queues does what the model of one end says: the next part, or nothing when asleep, closing or delimited; whole messages are counted and reported every `lwm` of them. |
| `PipeObject.Pipe.CheckWrite` | pruebas/createContainer/zeromq-3.2.3/src/pipe.cpp:149-162 | The object over its two queues does what the model of one end says: false when inactive or when the window is full, which makes the end inactive. |
| `PipeObject.Pipe.Write` | pruebas/createContainer/zeromq-3.2.3/src/pipe.cpp:164-175 | The object over its two queues does what the model of one end says: the part is put into the queue and counted if it is the last, or nothing happens to the queue. |
| `PipeObject.Pipe.Rollback` | pruebas/createContainer/zeromq-3.2.3/src/pipe.cpp:177-188 | The object over its two queues does what the model of one end says: all unfinished parts are taken back. |
| `PipeObject.Pipe.Flush` | pruebas/createContainer/zeromq-3.2.3/src/pipe.cpp:190-198 | The object over its two queues does what the model of one end says: finished items become visible and a sleeping peer is told, unless the end is terminating. |
| `PipeObject.Pipe.Terminate` | pruebas/createContainer/zeromq-3.2.3/src/pipe.cpp:316-376 | The object over its two queues does what the model of one end says: the move of the handshake, then rollback, delimiter and flush. |
| `PipeObject.Pipe.HandleActivateRead` | pruebas/createContainer/zeromq-3.2.3/src/pipe.cpp:200-206 | The object over its two queues does what the model of one end says: wakes the end and tells its sink exactly if it slept and may still read. |
| `PipeObject.Pipe.HandleActivateWrite` | pruebas/createContainer/zeromq-3.2.3/src/pipe.cpp:208-217 | The object over its two queues does what the model of one end says: records the peer's count and tells the sink exactly if the end becomes able to write. |
| `PipeObject.Pipe.HandlePipeTerm` | pruebas/createContainer/zeromq-3.2.3/src/pipe.cpp:242-281 | The object over its two queues does what the model of one end says: the move of the handshake that answers `pipe_term`. |
| `PipeObject.Pipe.HandlePipeTermAck` | pruebas/createContainer/zeromq-3.2.3/src/pipe.cpp:283-314 | The object over its two queues does what the model of one end says: the end acknowledges if that is owed, empties its inbound queue and is gone. |
| `OwnTree.ShutdownIsSafe` | pruebas/createContainer/zeromq-3.2.3/src/own.cpp:56-200 | Over all interleavings of all objects: no assertion fails; `term_acks` is the number of children told to terminate whose acknowledgement was not processed, plus registered events; sent minus processed sequence numbers are the numbered commands in flight or announced; every command in flight goes to a live object; an object is gone only after all its children, whose acknowledgements it has processed. |
| `OwnTree.StepInv` | pruebas/createContainer/zeromq-3.2.3/src/own.cpp:56-206 | Every action of every object, and every delivery in any order that keeps the order per sender, keeps the invariant over the tree and the channels. |
| `OwnTree.ToldOnce` | pruebas/createContainer/zeromq-3.2.3/src/own.cpp:88-163 | No action and no delivery adds a `term` for an object that has been told to terminate. |
| `OwnTree.RequestServed` | pruebas/createContainer/zeromq-3.2.3/src/own.cpp:88-109 | A request to terminate an owned child of an owner that goes on living has the child told, given up and awaited; any other changes nothing. |
| `OwnTree.RequestDelivered` | pruebas/createContainer/zeromq-3.2.3/src/own.cpp:95-109 | That is what the delivery of a `term_req` does. |
| `OwnTree.OwnServed` | pruebas/createContainer/zeromq-3.2.3/src/own.cpp:111-123 | A new child is owned by an owner that goes on living, and told and awaited at once by one that terminates. |
| `OwnTree.TerminateServed` | pruebas/createContainer/zeromq-3.2.3/src/own.cpp:125-163 | `terminate` of the root begins its termination, with all that it owns told and awaited; another object asks its owner and does nothing else; a repeated call does nothing. |
| `OwnProgress.QuietMeansGone` | pruebas/createContainer/zeromq-3.2.3/src/own.cpp:148-200 | When nothing is in flight, announced or registered, every object that started to terminate or was told to is gone. |
| `OwnObject.HandlersMayRun` | pruebas/createContainer/zeromq-3.2.3/src/own.cpp:148-177 | Whatever command is delivered next in a reachable state, its receiver exists and its handler runs without a failed assertion. |
| `OwnObject.Own.LaunchChild` | pruebas/createContainer/zeromq-3.2.3/src/own.cpp:71-81 | The object changes itself and the network as the tree's model says: both objects count one more sequence number before `plug` and `own` are sent. |
| `OwnObject.Own.CheckTermAcks` | pruebas/createContainer/zeromq-3.2.3/src/own.cpp:184-206 | The object changes itself and the network as the tree's model says: the object acknowledges and is gone exactly when it is terminating and nothing is awaited. |
| `OwnObject.Own.ProcessSeqnum` | pruebas/createContainer/zeromq-3.2.3/src/own.cpp:62-69 | The object changes itself and the network as the tree's model says: one more command is counted, which may be the last one awaited. |
| `OwnObject.Own.ProcessTermReq` | pruebas/createContainer/zeromq-3.2.3/src/own.cpp:88-109 | The object changes itself and the network as the tree's model says: an owned object is told to terminate and awaited; unknown objects and requests during shutdown are ignored. |
| `OwnObject.Own.ProcessOwn` | pruebas/createContainer/zeromq-3.2.3/src/own.cpp:111-123 | The object changes itself and the network as the tree's model says: the object is owned, or told to terminate at once when its owner is terminating. |
| `OwnObject.Own.Terminate` | pruebas/createContainer/zeromq-3.2.3/src/own.cpp:125-141 | The object changes itself and the network as the tree's model says: the root terminates itself, others ask their owner, a second call does nothing. |
| `OwnObject.Own.ProcessTerm` | pruebas/createContainer/zeromq-3.2.3/src/own.cpp:148-163 | The object changes itself and the network as the tree's model says: each owned object is told once and awaited. |
| `OwnObject.Own.UnregisterTermAck` | pruebas/createContainer/zeromq-3.2.3/src/own.cpp:170-182 | The object changes itself and the network as the tree's model says: one acknowledgement less is awaited, which may be the last. |
| `OwnObject.Own.ProcessCommand` | pruebas/createContainer/zeromq-3.2.3/src/object.cpp:59-130 | The object changes itself and the network as the tree's model says: each command runs its handler; a numbered one is counted after it. |
| `Subscriptions.AddMeans` | pruebas/createContainer/zeromq-3.2.3/src/mtrie.cpp:64-149 | `add` puts exactly one pair into the relation, keeps the trie canonical, and returns true exactly when nobody held the topic. |
| `Subscriptions.RmHeld` | pruebas/createContainer/zeromq-3.2.3/src/mtrie.cpp:281-380 | Removing a held pair removes it and nothing else, keeps the trie canonical, and returns true exactly for the topic's last pipe. |
| `Subscriptions.RmNotHeld` | pruebas/createContainer/zeromq-3.2.3/src/mtrie.cpp:286-299 | Removing a pair that is not held never changes the relation; it fails the assertion exactly when other pipes hold the topic, and returns true exactly when nobody holds it but somebody holds a longer one (or it is the empty topic). |
| `Subscriptions.RmAsPromisedIff` | pruebas/createContainer/zeromq-3.2.3/src/mtrie.cpp:286-299 | `rm` behaves as its callers expect exactly when the pair is held or nobody is subscribed to the topic or below it. |
| `Subscriptions.SpuriousRemoval` | pruebas/createContainer/zeromq-3.2.3/src/mtrie.cpp:286-299 | A concrete case in which it does not: unsubscribing from a prefix of the only topic reports a removal. |
| `Subscriptions.RmPipeMeans` | pruebas/createContainer/zeromq-3.2.3/src/mtrie.cpp:152-279 | Removing a pipe removes exactly its pairs, keeps the trie canonical, and calls back every topic that lost its last pipe once, with its full name, and no other. |
| `Subscriptions.MatchedCounts` | pruebas/createContainer/zeromq-3.2.3/src/mtrie.cpp:382-423 | `match` calls back a pipe once for each beginning of the message that it holds. |
| `Subscriptions.MatchedIff` | pruebas/createContainer/zeromq-3.2.3/src/mtrie.cpp:382-423 | So it calls back exactly the pipes that hold some beginning of the message. |
| `Tree.NodeIff` | pruebas/createContainer/zeromq-3.2.3/src/mtrie.cpp:425-428 | In a compact trie a node exists, below the root, exactly for the beginnings of topics that are stored. |
| `Tree.UpsertCompact` | pruebas/createContainer/zeromq-3.2.3/src/mtrie.cpp:83-149 | Growing a table in any of its forms keeps both its ends live, its count right and every node useful. |
| `Tree.ResetCompact` | pruebas/createContainer/zeromq-3.2.3/src/mtrie.cpp:311-377 | So does pruning and compacting. |
| `Listing.ListedMeans` | pruebas/createContainer/zeromq-3.2.3/src/trie.cpp:298-332 | A visit of the trie lists each topic with an accepted value once, with its full name, and no other. |
| `TrieNodes.TrieNode.Extend` | pruebas/createContainer/zeromq-3.2.3/src/mtrie.cpp:84-130 | The table is widened in place to cover the character, whether there was none, a single child or a table to grow to either side; no child moves to another character. |
| `TrieNodes.TrieNode.EnsureKid` | pruebas/createContainer/zeromq-3.2.3/src/mtrie.cpp:132-148 | The child for the character is found or created and counted. |
| `MTrie.Add` | pruebas/createContainer/zeromq-3.2.3/src/mtrie.cpp:69-149 | On the linked nodes: the trie they stand for gets the pair, and the result is right. |
| `MTrie.Rm` | pruebas/createContainer/zeromq-3.2.3/src/mtrie.cpp:286-380 | On the linked nodes: the pair is removed and the path pruned and compacted as the specification says, with its result, through all the forms of a table. |
| `MTrie.RmPipe` | pruebas/createContainer/zeromq-3.2.3/src/mtrie.cpp:152-279 | On the linked nodes: the pipe is removed everywhere, the tables are compacted, and the callbacks come in the specified order. |
| `MTrie.Match` | pruebas/createContainer/zeromq-3.2.3/src/mtrie.cpp:382-423 | The walk along the message calls back the pipes of every node on the way, each as often as it is there. |
| `Topics.AddMeans` | pruebas/createContainer/zeromq-3.2.3/src/trie.cpp:59-135 | `add` raises the count of its topic by one and changes no other. |
| `Topics.RmMeans` | pruebas/createContainer/zeromq-3.2.3/src/trie.cpp:137-254 | `rm` lowers the count of its topic by one if it is not zero, and changes no other. |
| `Topics.CheckIff` | pruebas/createContainer/zeromq-3.2.3/src/trie.cpp:256-288 | A message passes exactly when some prefix of it is subscribed. |
| `Topics.AppliedMeans` | pruebas/createContainer/zeromq-3.2.3/src/trie.cpp:290-332 | `apply` visits each subscribed topic once, however often it is subscribed, and no other. |
| `Trie.Add` | pruebas/createContainer/zeromq-3.2.3/src/trie.cpp:59-135 | On the linked nodes, with true exactly for a topic that was not subscribed; the assertions about new children hold. |
| `Trie.Rm` | pruebas/createContainer/zeromq-3.2.3/src/trie.cpp:137-254 | On the linked nodes, with true exactly for the last subscription. |
| `Trie.OneEnd` | pruebas/createContainer/zeromq-3.2.3/src/trie.cpp:178-201 | When one child is left, it is at the end of the table away from the pruned one, so taking it from there is right and the assertion holds. |
| `Trie.Check` | pruebas/createContainer/zeromq-3.2.3/src/trie.cpp:256-288 | The walk finds a subscription exactly when the trie has one on the way. |
| `Trie.Apply` | pruebas/createContainer/zeromq-3.2.3/src/trie.cpp:290-332 | The recursion over the nodes makes the calls in order. |
| `Sockets.SendAgrees` | pruebas/createContainer/zeromq-3.2.3/src/xsub.cpp:85-112 | If a publisher was told everything, it still is after `xsend`: what is passed on is news to it, and what is not passed on makes no difference to it. |
| `Sockets.GreetingAgrees` | pruebas/createContainer/zeromq-3.2.3/src/xsub.cpp:48-60 | A new publisher is told exactly the topics subscribed, each once. |
| `Sockets.HearFair` | pruebas/createContainer/zeromq-3.2.3/src/xpub.cpp:56-80 | A message of a well-behaved pipe changes the relation for this pipe and topic only, fails no assertion, and keeps what the user is told exact. |
| `Sockets.HearSoundIff` | pruebas/createContainer/zeromq-3.2.3/src/xpub.cpp:56-80 | For any message: the socket survives it with exact and irredundant notifications exactly when it does not end a subscription that the pipe does not hold while somebody holds that topic or a longer one. |
| `Sockets.HearQueues` | pruebas/createContainer/zeromq-3.2.3/src/xpub.cpp:64-78 | Just the messages that change who has the topic are queued for the user of an XPUB, with `verbose` every subscription, and for that of a PUB nothing is. |
| `Sockets.QuitSound` | pruebas/createContainer/zeromq-3.2.3/src/xpub.cpp:102-110 | When a pipe terminates exactly its pairs go, and the notifications stay exact. |
| `Sockets.QuitQueues` | pruebas/createContainer/zeromq-3.2.3/src/xpub.cpp:174-188 | The user of an XPUB hears once of the end of each topic that only this pipe had, and the user of a PUB hears nothing. |
| `Sockets.AttachExactIff` | pruebas/createContainer/zeromq-3.2.3/src/xpub.cpp:41-54 | Attaching a pipe that may have everything keeps the notifications exact exactly when the empty topic had a subscriber already. |
| `PubSub.StepInv` | pruebas/createContainer/zeromq-3.2.3/src/xsub.cpp:48-112 | For any number of subscribers, publishers and pipes, whose peers may close at any time so that they refuse messages: no step at any socket fails an assertion, and the step keeps the invariant exactly when no working pipe is attached in the middle of a message, and a pipe that terminates is behind the active ones, or the last of them, or all pipes are active, or the last active one refuses. |
| `PubSub.RunInv` | pruebas/createContainer/zeromq-3.2.3/src/xpub.cpp:56-110 | So no run of such steps, in any interleaving, fails an assertion; in particular every forwarded unsubscription names a pair that is held. |
| `PubSub.SendSub` | pruebas/createContainer/zeromq-3.2.3/src/xsub.cpp:85-112 | Sending through `dist_t` reaches the active pipes, and keeps every attached pipe that accepts messages active. |
| `PubSub.TerminatedActive` | pruebas/createContainer/zeromq-3.2.3/src/dist.cpp:79-90 | After a termination the pipes that accept messages are active exactly under that condition. |
| `Misled.TerminationMisses` | pruebas/createContainer/zeromq-3.2.3/src/xsub.cpp:79-112 | A concrete run without it: a pipe next to one that refuses terminates, and the subscriber's next subscription does not reach a pipe that works. |
| `Misled.TerminationMisleads` | pruebas/createContainer/zeromq-3.2.3/src/xpub.cpp:56-80 | The run continued: the end of that subscription does reach the pipe, and the publisher's assertion fails. |
| `PubSub.EndsAgree` | pruebas/createContainer/zeromq-3.2.3/src/xsub.cpp:48-112 | In every run of such steps: once a pipe is drained and its peer is not closing, the publisher's topics for it are the subscriber's, and the publisher selects the pipe for exactly the messages that the subscriber's filter lets through. |
| `PubSub.UserKnows` | pruebas/createContainer/zeromq-3.2.3/src/xpub.cpp:148-188 | In every run of such steps, the events received with those pending amount to exactly the topics with a subscribed pipe, and without `verbose` none of them is redundant. |
| `PubSub.ForwardPasses` | pruebas/createContainer/zeromq-3.2.3/src/xsub.cpp:85-112 | A device that sends a terse publisher's events on to a subscriber socket has each of them accepted and passed on, and ends up with exactly the same topics. |
| `Streams.ReplayOff` | pruebas/createContainer/zeromq-3.2.3/src/xpub.cpp:174-188 | Notifications that end subscriptions which are held remove exactly those. |
| `XPubSocket.XPub.ReadActivated` | pruebas/createContainer/zeromq-3.2.3/src/xpub.cpp:56-80 | Over the nodes of the trie: all arrived messages are applied in order and the right ones queued. |
| `XPubSocket.XPub.Attached` | pruebas/createContainer/zeromq-3.2.3/src/xpub.cpp:41-54 | A new pipe may be given everything, then what it has is read. |
| `XPubSocket.XPub.Terminated` | pruebas/createContainer/zeromq-3.2.3/src/xpub.cpp:102-110 | Over the nodes of the trie: the pipe is removed and one unsubscription queued for every topic called back. |
| `XPubSocket.XPub.Recv` | pruebas/createContainer/zeromq-3.2.3/src/xpub.cpp:148-167 | The oldest event, or nothing when there is none. |
| `XSubSocket.XSub.XSend` | pruebas/createContainer/zeromq-3.2.3/src/xsub.cpp:85-112 | Over the nodes of the trie: malformed messages are refused, news is sent to all, the rest is swallowed. |
| `XSubSocket.XSub.Attached` | pruebas/createContainer/zeromq-3.2.3/src/xsub.cpp:48-60 | One subscription message for each topic, in the order of the trie. |
| `XSubSocket.XSub.XRecv` | pruebas/createContainer/zeromq-3.2.3/src/xsub.cpp:120-162 | The next wanted part; what is wanted afterwards is the rest; nothing exactly when nothing is wanted. |
| `XSubSocket.XSub.XHasIn` | pruebas/createContainer/zeromq-3.2.3/src/xsub.cpp:164-202 | True exactly when a wanted part is there; nothing that is wanted is lost by looking. |
| `XSubSocket.WantedIsChosen` | pruebas/createContainer/zeromq-3.2.3/src/xsub.cpp:135-161 | What is wanted of a stream of messages are the whole messages whose first part begins with a subscribed topic. |
| `Wire.RoundTrip` | pruebas/createContainer/zeromq-3.2.3/src/wire.hpp:72-95 | Writing and reading 64 bits gives the value back, modulo 2 to the 64. |
| `Wire.PutGet` | pruebas/createContainer/zeromq-3.2.3/src/wire.hpp:72-95 | Reading and writing gives the bytes back. |
| `Wire.BigEndian` | pruebas/createContainer/zeromq-3.2.3/src/wire.hpp:72-82 | The most significant byte is written first. |
| `Framing.DecodedAppend` | pruebas/createContainer/zeromq-3.2.3/src/decoder.hpp:97-144 | What bytes mean does not depend on how they are split: decoding goes on where it stopped, and an error stays. |
| `Framing.FrameOfEncoded` | pruebas/createContainer/zeromq-3.2.3/src/v1_encoder.cpp:50-103 | The first frame of an encoded message, in either framing and whatever follows, is the message. |
| `Framing.UnversionedHeaderIs` | pruebas/createContainer/zeromq-3.2.3/src/encoder.cpp:81-100 | The header has two bytes for a body of less than 254 bytes and ten for a longer one, the size counts the flags byte, and that byte is 1 for a message with more to come and 0 otherwise; the body follows. |
| `Framing.V1HeaderIs` | pruebas/createContainer/zeromq-3.2.3/src/v1_encoder.cpp:74-94 | The header has two bytes for a body of at most 255 bytes and nine for a longer one; the first byte has bit 0 for more to come, bit 1 for a long size and no other; the body follows. |
| `Framing.DecodedEncoded` | pruebas/createContainer/zeromq-3.2.3/src/encoder.cpp:58-102 | Decoding the encoding of acceptable messages gives them back, all of them and with nothing left. |
| `Framing.RefusedExactly` | pruebas/createContainer/zeromq-3.2.3/src/decoder.cpp:60-138 | A message is refused exactly when its body is larger than a configured maximum or than the memory. |
| `Framing.ZeroIsRefused` | pruebas/createContainer/zeromq-3.2.3/src/decoder.cpp:60-108 | In the unversioned framing a size of zero, in one byte or in eight, is refused: there has to be the flags byte. |
| `Framing.PrefixDecodes` | pruebas/createContainer/zeromq-3.2.3/src/decoder.cpp:60-166 | Any beginning of the encoding decodes to a beginning of the messages, without an error. |
| `Encoder.Encoder.GetData` | pruebas/createContainer/zeromq-3.2.3/src/encoder.hpp:73-127 | For any buffer, own or the caller's, copied or in place: the bytes handed out are the encoding of the messages pulled but for what is pending, nothing is lost from the source, and less than a full buffer comes back only when there is nothing left. |
| `Encoder.Encoder.HeaderStep` | pruebas/createContainer/zeromq-3.2.3/src/encoder.cpp:58-102 | One message is pulled and its header scheduled, or there is none and nothing changes. |
| `Encoder.Encoder.UnversionedHeader` | pruebas/createContainer/zeromq-3.2.3/src/encoder.cpp:81-100 | Those bytes of the unversioned framing are scheduled. |
| `Encoder.Encoder.V1Header` | pruebas/createContainer/zeromq-3.2.3/src/v1_encoder.cpp:74-93 | Those bytes of version 1 are scheduled. |
| `Encoder.Encoder.BodyStep` | pruebas/createContainer/zeromq-3.2.3/src/encoder.cpp:50-56 | The body follows its header. |
| `Decoder.Decoder.ProcessBuffer` | pruebas/createContainer/zeromq-3.2.3/src/decoder.hpp:97-144 | For any chunk, copied or in place: exactly the reported bytes are consumed, fewer than given only because the sink refuses, an error only as decided below; the messages delivered stay those that the bytes mean. |
| `Decoder.Decoder.UnversionedSizeByte` | pruebas/createContainer/zeromq-3.2.3/src/decoder.cpp:60-96 | Escape, zero size, size over the limit, or a size: the decoder is where the bytes so far say, or dead because they are refused. |
| `Decoder.Decoder.UnversionedSizeLong` | pruebas/createContainer/zeromq-3.2.3/src/decoder.cpp:98-138 | The same for the long size. |
| `Decoder.Decoder.UnversionedFlags` | pruebas/createContainer/zeromq-3.2.3/src/decoder.cpp:140-149 | The flag is taken and the body comes next. |
| `Decoder.Decoder.V1Flags` | pruebas/createContainer/zeromq-3.2.3/src/v1_decoder.cpp:61-75 | The flags say whether the size is long. |
| `Decoder.Decoder.V1SizeByte` | pruebas/createContainer/zeromq-3.2.3/src/v1_decoder.cpp:77-106 | The size is accepted or refused. |
| `Decoder.Decoder.V1SizeLong` | pruebas/createContainer/zeromq-3.2.3/src/v1_decoder.cpp:108-145 | The same for the long size. |
| `Decoder.Decoder.MessageReady` | pruebas/createContainer/zeromq-3.2.3/src/decoder.cpp:151-166 | The message is delivered once, or kept for later, or the decoder dies with its sink. |
| `Decoder.Decoder.Stalled` | pruebas/createContainer/zeromq-3.2.3/src/decoder.hpp:149-164 | True exactly when a whole message waits for the sink. |
| `Decoder.Decoder.GetBuffer` | pruebas/createContainer/zeromq-3.2.3/src/decoder.hpp:73-91 | What can be read in place never goes beyond what is missing, and with a buffer larger than any header it is the rest of a message's body; any other target has room for more than is missing; neither is empty. |
| `Decoder.DeliversMeaning` | pruebas/createContainer/zeromq-3.2.3/src/decoder.hpp:97-164 | A decoder at rest has delivered exactly the messages its bytes mean, but for one it may hold back; it is dead exactly because of its bytes or of its sink. |
| `Codec.RoundTrip` | pruebas/createContainer/zeromq-3.2.3/src/encoder.hpp:73-127 | Encoder and decoder joined by a stream cut anywhere, with a sink that may refuse at any time: what is delivered is always the beginning of what was pulled, the decoder never fails by itself, and once everything is through, everything was delivered exactly once. |
| `Message.Msg.InitSize` | pruebas/createContainer/zeromq-3.2.3/src/msg.cpp:51-75 | A small message is held in the handle, a large one in fresh content with one owner. |
| `Message.Msg.Close` | pruebas/createContainer/zeromq-3.2.3/src/msg.cpp:104-135 | The handle becomes invalid; the content loses one owner and is given back exactly with the last. |
| `Message.Msg.Move` | pruebas/createContainer/zeromq-3.2.3/src/msg.cpp:137-156 | The message changes hands and its source is empty; no reference is won or lost. |
| `Message.Msg.Copy` | pruebas/createContainer/zeromq-3.2.3/src/msg.cpp:158-186 | Both handles hold the message and its content has one owner more. |
| `Message.Msg.AddRefs` | pruebas/createContainer/zeromq-3.2.3/src/msg.cpp:250-268 | The content has that many owners more. |
| `Message.Msg.RmRefs` | pruebas/createContainer/zeromq-3.2.3/src/msg.cpp:270-298 | The content has that many owners less and is given back exactly when none is left. |
| `PipeArray.PipeArray.PushBack` | pruebas/createContainer/zeromq-3.2.3/src/array.hpp:106-111 | The item is last and knows its place. |
| `PipeArray.PipeArray.Swap` | pruebas/createContainer/zeromq-3.2.3/src/array.hpp:124-131 | Two items trade places, all items know theirs, none is won or lost. |
| `PipeArray.PipeArray.Erase` | pruebas/createContainer/zeromq-3.2.3/src/array.hpp:113-122 | The last item takes the place of the erased one and knows it. |
| `Fanout.AttachMeans` | pruebas/createContainer/zeromq-3.2.3/src/dist.cpp:41-57 | A new pipe is eligible, and active unless a message is being sent; no other pipe changes its class. |
| `Fanout.MatchMeans` | pruebas/createContainer/zeromq-3.2.3/src/dist.cpp:59-72 | Marking marks an eligible pipe and nobody else; it keeps the active pipes, and the cursors in order, exactly when the pipe is not one that is eligible and not active. |
| `Fanout.ActivatedMeans` | pruebas/createContainer/zeromq-3.2.3/src/dist.cpp:92-104 | A pipe that refused is eligible again, and active unless a message is being sent; no other pipe changes its class. |
| `Fanout.ErasedKeepsIff` | pruebas/createContainer/zeromq-3.2.3/src/dist.cpp:79-90 | A cursor still has the right pipes before it exactly when the removed pipe was behind it, or the last one before it, or all pipes were before it; otherwise the last pipe before the cursor is lost and the last of all takes its place. |
| `Fanout.TerminatedLoses` | pruebas/createContainer/zeromq-3.2.3/src/dist.cpp:79-90 | A concrete case: after the first of two active pipes terminates, the passive one counts as active and the active one as passive. |
| `Fanout.RefusedMeans` | pruebas/createContainer/zeromq-3.2.3/src/dist.cpp:179-188 | A pipe that refuses leaves the matching, the active and the eligible pipes, and nobody else leaves any of them; the pipes before it keep their places. |
| `Fanout.PushMeans` | pruebas/createContainer/zeromq-3.2.3/src/dist.cpp:158-164 | The loop keeps as matching just those matching pipes that accept; those that refuse, and nobody else, leave the active and the eligible ones. |
| `Fanout.SentMeans` | pruebas/createContainer/zeromq-3.2.3/src/dist.cpp:112-127 | So does a part of a message; after the last part exactly the eligible pipes are active. |
| `Dist.Dist.Attach` | pruebas/createContainer/zeromq-3.2.3/src/dist.cpp:41-57 | The object does to its array and its cursors what `Fanout` says of a new pipe. |
| `Dist.Dist.Match` | pruebas/createContainer/zeromq-3.2.3/src/dist.cpp:59-72 | It does what `Fanout` says of marking a pipe, between messages and in the middle of one. |
| `Dist.Dist.Activated` | pruebas/createContainer/zeromq-3.2.3/src/dist.cpp:92-104 | It does what `Fanout` says of a pipe that can be written to again. |
| `Dist.Dist.Terminated` | pruebas/createContainer/zeromq-3.2.3/src/dist.cpp:79-90 | It does what `Fanout` says of a pipe that terminates; the cursors stay in order. |
| `Dist.Dist.Write` | pruebas/createContainer/zeromq-3.2.3/src/dist.cpp:179-193 | The pipe is tried once; if it accepts, the message follows what was written to it, and is visible with all of it if it is a last part, and nothing becomes visible otherwise; if it refuses it has what it had, and leaves the cursors as `Fanout` says. |
| `Dist.Dist.Push` | pruebas/createContainer/zeromq-3.2.3/src/dist.cpp:158-164 | Although the array is permuted while the loop runs, every pipe that matched is tried exactly once and nobody else is, those that accept have the message, and the cursors end as `Fanout` says. |
| `Dist.Dist.Distribute` | pruebas/createContainer/zeromq-3.2.3/src/dist.cpp:129-172 | Every matching pipe that accepts gets one copy and no other pipe gets any; afterwards the content has exactly its other owners and these copies, and is given back if there are none. |
| `Dist.Dist.SendToMatching` | pruebas/createContainer/zeromq-3.2.3/src/dist.cpp:112-127 | Every matching pipe is tried once with the part as `Write` says, and no other pipe changes; after the last part all eligible pipes are active. |
| `Dist.Dist.SendToAll` | pruebas/createContainer/zeromq-3.2.3/src/dist.cpp:106-110 | Every active pipe is tried once with the part as `Write` says, no other pipe changes, and the cursors end as `Fanout` says. |
| `Fairness.EverySweepIsFair` | pruebas/createContainer/zeromq-3.2.3/src/fq.cpp:47-116 | In every run, whatever pipes are ready, join, wake up or terminate, as long as they terminate as in the next row: each completed round of `current` serves no pipe twice and serves every pipe that was active when it began, unless its turn came while it was not ready, or it terminated. |
| `Fairness.LeaveKeepsIff` | pruebas/createContainer/zeromq-3.2.3/src/fq.cpp:47-60 | A termination between messages keeps the round fair exactly when the pipe's turn is still to come, or the last active pipe, which takes its place, is not owed a turn. |
| `Fairness.LeaveIsUnfair` | pruebas/createContainer/zeromq-3.2.3/src/fq.cpp:47-60 | A concrete case: of four pipes that are always ready the first terminates after its turn, and the round ends without a turn for the fourth. |
| `Fairness.ServedWithin` | pruebas/createContainer/zeromq-3.2.3/src/fq.cpp:74-116 | Whatever happens, an active pipe that is always ready is served before there were more turns than others are before it, and than it was delayed: by one for each pipe that joins or wakes up, by at most its place for each pipe that terminates after its turn. |
| `Fairness.ServedInOneRound` | pruebas/createContainer/zeromq-3.2.3/src/fq.cpp:74-116 | If nothing else happens, that is as many turns as there are active pipes. |
| `Fairness.AfterIsNext` | pruebas/createContainer/zeromq-3.2.3/src/fq.cpp:40-116 | What the rounds record is what happens to the ring, so both claims are about the same runs. |
| `RoundRobin.CurrentStaysIff` | pruebas/createContainer/zeromq-3.2.3/src/fq.cpp:47-60 | In the middle of a message, the termination of a pipe leaves the turn where it is exactly when it is not this pipe, and this one is not the last active one or moves to the first place, or the other is passive. |
| `RoundRobin.CurrentIsLost` | pruebas/createContainer/zeromq-3.2.3/src/fq.cpp:47-60 | A concrete case: when the second of three pipes terminates while the third is read from, the turn goes to the first. |
| `RoundRobin.FindMeans` | pruebas/createContainer/zeromq-3.2.3/src/fq.cpp:81-108 | The search stops at an active pipe that is ready and deactivates only pipes that are not, or finds that none is ready. |
| `RoundRobin.TerminatedMeans` | pruebas/createContainer/zeromq-3.2.3/src/fq.cpp:47-60 | A pipe that terminates goes, the others stay active or passive as they were, and `current` stays in range. |
| `Schedulers.Fq.RecvPipe` | pruebas/createContainer/zeromq-3.2.3/src/fq.cpp:74-116 | In the middle of a message its next part from the same pipe, otherwise the first part from the pipe whose turn it is; everybody else's messages stay; the turn passes on after the last part only. |
| `Schedulers.Fq.Attach` | pruebas/createContainer/zeromq-3.2.3/src/fq.cpp:40-45 | The new pipe is the last active one. |
| `Schedulers.Fq.Activated` | pruebas/createContainer/zeromq-3.2.3/src/fq.cpp:62-67 | The pipe becomes the last active one. |
| `Schedulers.Fq.Terminated` | pruebas/createContainer/zeromq-3.2.3/src/fq.cpp:47-60 | The pipe is taken out as the ring's model says; what is being read goes on if the turn stays where it is. |
| `Schedulers.Lb.Send` | pruebas/createContainer/zeromq-3.2.3/src/lb.cpp:74-124 | All parts of a message go to one pipe; the first part goes to the pipe whose turn it is; with no pipe that accepts nothing happens to the message; the rest of a message whose pipe has gone is dropped. |
| `Schedulers.Lb.Terminated` | pruebas/createContainer/zeromq-3.2.3/src/lb.cpp:47-65 | The pipe is taken out; if a message was being written to it, its rest will be dropped; what is written to another goes on if the turn stays where it is. |

## Left out

- Hiccups (`pipe.cpp:219-240`, `429-446`): replacing a queue drops messages that were counted, so the flow-control and progress claims do not hold across one.
- Weak memory and the inline assembly of `atomic_ptr.hpp` and `atomic_counter.hpp`: each access is one atomic step.
- Machine widths: message counters, sequence numbers and reference counts are unbounded; only the 64-bit sizes on the wire are truncated as in the source.
- Allocation failure, other than for the body of a message that is being decoded, which fails for every size above `memory`.
- Decoder.Decoder.V1SizeLong: the source adds the size of a content's header to the size of the body in the argument of `malloc` (`msg.cpp:61-62`), which wraps round for every size that is less than this header below 2 to the 64, and it accepts such a size; the model has no such header, refuses the largest size outright, and counts the others as allocations that `memory` decides.
- `YPipe.YPipe` stands on a sequence of slots and `YQueue.YQueue` refines such a sequence; the two are not put together.
- YQueue.YQueue.Push: the race of both threads for the spare chunk is not modelled, because one atomic exchange decides it; each method runs alone.
- Mailbox.Mailbox.Recv: the timeout is a flag that says whether the wait was cut short.
- PipeObject.Pipe.HandlePipeTermAck: freeing the object is a flag.
- PipeObjects.Duplex.Act: calls at the two ends do not overlap; the two threads meet in the queues only, whose accesses are interleaved in `YPipe.StepRefines`.
- The events of a pipe are results of its handlers instead of calls to a sink.
- OwnObject.Own: the linger time carried by `term` is not modelled.
- A `term_req` that arrives before the matching `own` is ignored by the source, so no claim is made that a requested termination starts; `OwnProgress.QuietMeansGone` speaks of those that did.
- `MTrie.Rm`, `MTrie.RmPipe` and `Trie.Rm` are module-level methods over the node class that both tries share, since the source writes the same node twice; the freed nodes are dropped from the structure without recording that they are freed.
- MTrie.Rm: the failed assertion for a pair not held is a precondition of the method; when it occurs is stated by `Subscriptions.RmNotHeld`.
- MTrie.RmPipe, Trie.Apply: the growing buffer that holds the current path is the path itself, and the callbacks are a list.
- PubSub.RunInv: pipes have no high-water mark (with one, both sockets drop subscriptions), `verbose` is chosen when a socket is made, pipes given everything are covered by `Sockets.AttachExactIff` only, and a publisher may read a part before it is flushed, which allows more runs than the source has.
- XPubSocket.XPub: `xsend` is the composition of `MTrie.Match` with `Dist.Dist.Match`, `SendToMatching` and `Unmatch`, and is not modelled as one method.
- XSubSocket.XSub: fair queueing is the stream it hands out; `xhiccuped` repeats the greeting and adds nothing new.
- Encoder.Encoder.GetData: the offset of the first message in the batch, which only the PGM transport uses, is not computed.
- Encoder.Encoder, Decoder.Decoder: buffers are sequences of bytes, so that the memory handed out in place is still valid later is not modelled.
- Dist.Dist.Distribute: peers that close their copies while the loop still runs are not modelled, because the references added in advance keep the content.
- Schedulers.Fq, Schedulers.Lb: `has_in` and `has_out` search like `RecvPipe` and `Send` without taking anything; the items' own index is modelled in `PipeArray.PipeArray`.
- `ctx_t`, the reaper, pollers, the TCP, IPC and PGM transports, socket options, the other socket types and the performance programs: I/O and platform code.
- The JavaScript of the repository: calls of the Docker and ZeroMQ clients, with no algorithm of their own.
