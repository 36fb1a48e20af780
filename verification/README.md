# Verification of the proxy core

This project models the stateful parts of the proxy (`src/`) in Dafny and proves what
each of them promises. `dafny verify dfyconfig.toml` checks all of it. Nothing is
executed: everything is stated for all inputs, all runs or all reachable states.

| files | what they model |
|---|---|
| `RbShape`, `RbMemory`, `RbRemoval`, `RbTree` | the red-black tree with parent pointers and a shared sentinel, updated in place |
| `Timers` | request deadlines over that tree, and the timeout loop |
| `Mbufs`, `Messages` | chained buffers and messages made of them |
| `Queues`, `ByteQueue` | queues as sequences, and byte strings in a queue of which a kernel takes a part |
| `SendChain`, `RecvChain` | gathering writes with partial results; reads that a parser cuts into messages |
| `ServerConn` | the two queues of a server connection with the bytes on its wire, and the pairing of responses |
| `Fragments`, `Ledger`, `ClientConn` | requests cut into fragments, their cached answers, and the queue of a client connection, with an account of what became of every request and the bytes on the wire |
| `Md5`, `Md5Vector` | the buffered, optimised MD5 against RFC 1321, and a digest of its test suite |
| `StatsBuffers` | the three metric arrays shared by two threads |
| `StatsJson`, `JsonReader`, `StatsReport` | the report printed into a buffer of precomputed size, against a recursive JSON printer and a reader of RFC 8259 |
| `Continuum`, `Pool`, `Ejection`, `KeyIndex` | points on the continuum, the census of live servers, ejection and return, and the way from a key to a server |
| `Conf`, `ConfParser` | the structure validator and the parser that trusts it |
| `Jenkins`, `JenkinsVector` | one hash computed by three kinds of memory reads, and a hash published with the function |

How the models are built:

- **Tree.** Nodes are objects whose fields are rewritten as in the source. A ghost
  shape (a tree value) and a path from a position to the root say what the heap holds
  around that position; every rotation, recolouring and unlinking is proved once, at
  any position. The heap's cells are mirrored by a ghost map, so that the pointer
  reasoning is about values. The invariant says nothing about the parent of the root,
  which after some deletions still is a node long gone; the proofs show that it is
  copied but never followed. Keys may be equal, and a new node goes behind its equals.
- **Timers.** The queue of running timers is the tree's order. Closing a connection finishes
  given requests and deletes their timers. What the timeout loop may do is a relation on
  timers, flags and errors before and after, which its rounds add up to.
- **Messages.** A chain of mbufs is a sequence of distinct objects over distinct
  arrays. The kernel is an arbitrary function from the bytes offered to a result, the
  parser an arbitrary function under the contract that its mark stays inside the last
  mbuf and a message is not made of nothing.
- **Server connection.** Requests carry their bytes, and the kernel takes any part of what
  a pass offers. Ghost histories of forwarded, written and answered requests and of the
  bytes on the wire are tied to the two queues in every state.
- **Client connection.** A group of fragments is a ghost sequence with the owner first.
  In the queue it is on its way in, whole, or on its way out; each of these keeps the
  cached answers right. A ghost ledger has an entry for every request that ever entered,
  in the order of arrival: what was written of its response, and whether it waits, is
  answered, or left for the error response of its group. In every state the queue is the
  entries that wait, and the bytes on the wire are those of the entries one behind the
  other, so no request can leave without a response or an entry that excuses it.
- **Statistics.** The aggregator's loop is taken metric by metric, with any number of
  updates and swaps between two metrics. Ghost totals count what was ever added, and what
  a timestamp shows is told from the events alone.
- **Report.** The text in the buffer is always that of some list of members with one
  separator too many, and the patching of the tail turns it into the printed object. A
  reader that knows nothing of the printer gets every name and value back.
- **Ejection.** Server times are those at the last rebuild (`seen`, `at`), which later
  responses may only improve.
- **Configuration.** Documents are trees, and their events well nested. Both automata
  are functions on single events; the loops are proved against them, and the theorems
  are about every document.
- **MD5 and Jenkins.** The specification is the plain definition, over bytes; the
  methods have the source's order of operations, its constants and its branches. The
  definitions themselves are computed on one known input each.

Five properties do not hold of the code on all inputs. The code is modelled as it is; each
has an input on which the property fails and the exact condition under which it holds:

- A response can be written after a part of itself. An error response made for a request
  of whose response a part was already written starts from its beginning
  (`src/gf_response.c:339-348`). `ClientConn.SpoiltResponse` is a run in which a client gets
  three bytes for a response of two. `ClientConn.Conn.SendPass` says that a pass spoils
  bytes if and only if, before it, the first request of the queue is done, in error and
  partly written, and that they are that part; `ClientConn.Conn.WireOrder` says that they
  stand in front of that response, and `ClientConn.Conn.WireInOrder` that the client gets
  nothing but the responses as long as there are none.
- Requests can be written to a server out of turn. A message without bytes is finished
  behind one that was not written completely (`src/gf_message.c:799-803`), and then gets
  its response: `ServerConn.OutOfTurn` is a run. `ServerConn.Conn.SendPass` says that a
  pass keeps the order of forwarding if and only if no request without bytes is finished
  behind one that is not, and that it always does when every request has bytes.
- `set_ts` with zero takes back the reading in `current`. `StatsBuffers.ZeroTakesBack` is a
  run, `StatsBuffers.Stats.SetTs` says for one call and `StatsBuffers.LastShown` for a run
  exactly when the last time is still shown. The only caller passes the clock
  (`src/gf_server.c:298`).
- A report is no JSON, or another document, when a name has a character to escape, as names
  are printed as they are. `JsonReader.QuoteLost` is a name that is lost, and
  `StatsReport.ReportRead` says that a reader finds every name and value if and only if no
  name has such a character.
- A report without any pool has a comma before the closing brace and is no JSON
  (`StatsReport.Buffer.MakeRsp`, `StatsReport.StrayComma`). The program never makes one: a configuration without
  pools is refused (`src/gf_conf.c:1271-1275`) and the statistics assert that there is one
  (`src/gf_stats.c:285`).

In `src/gf_response.c:313` the code has `&&` where its comment and the check in line
335 need `||`; the model has `||`.

## Model

| member | source | states |
|---|---|---|
| RbTree.Tree.constructor | src/gf_rbtree.c:42-49 | The given node becomes the black sentinel of an empty, valid tree. |
| RbTree.Tree.Insert | src/gf_rbtree.c:132-212 | Any node outside the tree, equal keys included: the tree stays a valid linked red-black tree, its nodes are the old ones and this one, and the key order is the old one with the node after every key that is not larger and before every larger one. |
| RbTree.Tree.Descend | src/gf_rbtree.c:152-160 | The descent ends at a free place in the order at which everything before has a key of at most the new one and everything behind a larger one. |
| RbTree.Tree.InsertRound | src/gf_rbtree.c:170-208 | One round keeps links and key order and black heights, and leaves at most one red pair, which is higher up. |
| RbTree.Tree.Recolor | src/gf_rbtree.c:175-179 | A red uncle: the red pair moves two levels up, with no change of order or members, whichever side the uncle is on. |
| RbTree.Tree.InsertFixup | src/gf_rbtree.c:168-211 | The loop ends, from any newly hung red leaf, with no red pair and the same nodes in the same order. |
| RbTree.Tree.LeftRotate | src/gf_rbtree.c:78-103 | On the heap, at any position of the tree: exactly the rotated tree with all parent links right, for every node but the root, and the sentinel as it was. |
| RbTree.Tree.RightRotate | src/gf_rbtree.c:105-130 | The mirror image of the left rotation. |
| RbTree.Tree.Delete | src/gf_rbtree.c:214-355 | Any member: the tree stays valid, loses this node and no other, the rest keep their order, and the node is reset. The parent of the root is never followed, as nothing is known about it. |
| RbTree.Tree.DeleteRoot | src/gf_rbtree.c:235-242 | A root with at most one subtree: the subtree becomes the tree, with a black root, and the removed root is reset. |
| RbTree.Tree.RemoveOne | src/gf_rbtree.c:244-253 | A node with at most one subtree is unlinked below any position; the parent of what replaces it, be it the sentinel, is set for the fix-up. |
| RbTree.Tree.RemoveTwo | src/gf_rbtree.c:254-284 | The successor, next to the node or further down, takes over the node's place, links and colour; the node is in the tree no more. |
| RbTree.Tree.NodeInit | src/gf_rbtree.c:31-40 | Resetting a node that has left the tree touches nothing in the tree. |
| RbTree.Tree.DeleteRoundLeft | src/gf_rbtree.c:296-322 | One round of the fix-up for a left child: the place that is one black node short moves up, or becomes red, and the order stays. |
| RbTree.Tree.DeleteRoundRight | src/gf_rbtree.c:324-351 | The same for a right child. |
| RbTree.Tree.DeleteFixup | src/gf_rbtree.c:292-354 | The loop ends in a balanced tree with a black root, with the same nodes in the same order. |
| RbTree.Tree.Min | src/gf_rbtree.c:63-76 | The first node in key order, or none exactly for the empty tree, and 2^steps is at most (n+1)^2 for a tree of n nodes. |
| RbTree.Tree.DescentBound | src/gf_rbtree.c:152-160 | No place of a balanced tree is deeper than 2 log2(n+1), which bounds the descents of insert and min. |
| RbTree.Tree.OrderFacts | src/gf_rbtree.c:132-355 | In a valid tree the order has no node twice, is ascending, and consists of exactly the members, without the sentinel. |
| RbShape.PlugInorder | src/gf_rbtree.c:78-130 | The order of a whole tree is what stands before a position, the order of the subtree, and what stands behind; so a local change moves nothing else. |
| RbShape.SepNoDuplicates | src/gf_rbtree.c:132-355 | A tree without sharing has no node twice in its order. |
| RbShape.BlackHeightUnique | src/gf_rbtree.c:294-354 | All paths of a balanced tree have one and the same number of black nodes. |
| RbShape.HeightBound | src/gf_rbtree.c:51-61 | 2^height of a balanced tree is at most (n+1)^2. |
| RbShape.RecoloredUp | src/gf_rbtree.c:175-179 | After the colour flip the grandparent's subtree and its surroundings are balanced again, and order and members are the same. |
| RbShape.TurnedRight | src/gf_rbtree.c:186-188 | The last rotation of an insertion restores black heights and leaves no red pair. |
| RbShape.TurnedLeft | src/gf_rbtree.c:204-206 | The same on the other side. |
| RbShape.RedSiblingRight | src/gf_rbtree.c:299-304 | Rotating a red sibling away keeps the shortage where it was and gives a black sibling. |
| RbShape.RedSiblingLeft | src/gf_rbtree.c:327-332 | The same on the other side. |
| RbShape.ShortageUp | src/gf_rbtree.c:306-308 | Black nephews: the sibling turns red and the shortage is the parent's, on either side. |
| RbShape.NearNephewRight | src/gf_rbtree.c:310-315 | A red near nephew becomes the sibling with a red far nephew. |
| RbShape.NearNephewLeft | src/gf_rbtree.c:338-343 | The same on the other side. |
| RbShape.FarNephewRight | src/gf_rbtree.c:317-321 | A red far nephew: one rotation of the parent balances the whole tree. |
| RbShape.FarNephewLeft | src/gf_rbtree.c:345-349 | The same on the other side. |
| RbShape.RemovalBalance | src/gf_rbtree.c:244-253 | Taking out a node with at most one subtree leaves a balanced surrounding with a shortage of one exactly when the node was black. |
| RbShape.RemovalOrder | src/gf_rbtree.c:244-253 | It takes exactly that node out of order and members. |
| RbShape.SuccessorOrder | src/gf_rbtree.c:254-284 | Putting the successor in the node's place takes exactly the node out of order and members. |
| RbShape.RootRemoval | src/gf_rbtree.c:235-242 | The only subtree of a balanced root is balanced once its root is black. |
| RbMemory.SwungLeft | src/gf_rbtree.c:84-102 | The pointer writes of a left rotation turn one linked tree into the other, whatever surrounds it. |
| RbMemory.SwungRight | src/gf_rbtree.c:111-129 | The same for a right rotation. |
| RbMemory.LeafHung | src/gf_rbtree.c:162-166 | The writes of an insertion hang a leaf into a free place of a linked tree. |
| RbMemory.Unlinked | src/gf_rbtree.c:246-253 | The writes that bypass a node leave a linked tree without it. |
| RbMemory.Replaced | src/gf_rbtree.c:262-283 | The writes of the takeover leave a linked tree with the new node in the old one's place. |
| RbMemory.Painted | src/gf_rbtree.c:176-178 | A change of colour of one node is that of the tree. |
| RbRemoval.DetachedReady | src/gf_rbtree.c:246-260 | Taking the successor out first, next to the node or further down, leaves everything ready for the takeover. |
| RbRemoval.TakenOverFocus | src/gf_rbtree.c:262-283 | The takeover's reads are all of nodes in the tree, and it ends in a linked tree. |
| RbRemoval.Relocated | src/gf_rbtree.c:256-260 | The position of the hole after the takeover, and its parent. |
| Timers.Queue.TmoMin | src/gf_message.c:138-148 | The message with an earliest deadline, or none exactly when no timer runs. |
| Timers.Queue.TmoInsert | src/gf_message.c:151-172 | The deadline is now plus the timeout of the connection, behind all that are not later and before all later ones, and every other timer is as it was; with a negative timeout nothing happens. |
| Timers.Queue.TmoDelete | src/gf_message.c:175-189 | The running timers lose that of the message and no other, and a second deletion changes nothing. |
| Timers.Queue.Register | src/gf_message.c:192-276 | A new message joins with no timer running. |
| Timers.Close | src/gf_core.c:302-316 | Closing a connection deletes the timers of exactly the requests that go down with it, finishes exactly these in error, and inserts none. |
| Timers.Expire | src/gf_core.c:312-316 | A request at the front that has run out of time: its timer and those of the requests that go down go, exactly these requests are finished, and exactly this connection has the error. |
| Timers.Turn | src/gf_core.c:284-317 | One round either changes nothing and ends with the wait for an unfinished request, or deletes at least one timer, of a request that was finished before, or with a connection that is closed because a timer of an unfinished request on it has run out. |
| Timers.Rounds | src/gf_core.c:284-318 | The loop ends, as every round but the last leaves fewer timers, and does what its rounds do. |
| Timers.WaitFits | src/gf_core.c:305-310 | The conversion of the time left to a C int changes nothing for a timeout that is one, while the clock does not go backwards. |
| Timers.CoreTimeout | src/gf_core.c:279-319 | On return every timer left is in the future and the first is of an unfinished request; the wait is never longer than max_timeout nor than the time to the first as a C int, and is one of the two. Connections are closed, with ETIMEDOUT, only for a timer of an unfinished request that has run out, exactly the requests that go down with them are finished in error, nothing else changes, and every timer that is gone was of a request finished before, or had run out on a connection that was closed, or went down with one. |
| Timers.SweptMore | src/gf_core.c:284-318 | What two rounds do one after the other is of that kind again, seen from the beginning of the first. |
| Mbufs.Mbuf.Copy | src/gf_mbuf.c:213-227 | The bytes follow what was there, which is untouched. |
| Mbufs.Mbuf.Split | src/gf_mbuf.c:237-269 | What was held is now in the two mbufs, one behind the other, and the new mbuf always has room. |
| Mbufs.BytesConcat | src/gf_mbuf.c:186-191 | The bytes of two chains linked together are those of one behind those of the other. |
| Messages.Msg.EnsureMbuf | src/gf_message.c:449-465 | The last mbuf has room for the bytes, and the message holds what it held. |
| Messages.Msg.Append | src/gf_message.c:472-489 | The message ends with the bytes and mlen is still the sum of the mbuf lengths. |
| Messages.Msg.Prepend | src/gf_message.c:492-509 | The message begins with the bytes and mlen is still the sum of the mbuf lengths. |
| Messages.Msg.SplitOff | src/gf_message.c:567-583 | The message keeps what is parsed, the new one has the rest, and both have their mlen right. |
| Messages.Msg.Repair | src/gf_message.c:594-607 | The message is the same; its unparsed bytes are in an mbuf of their own. |
| SendChain.Send | src/gf_message.c:718-841 | Whatever the kernel takes of the bytes offered, exactly the first n unsent bytes leave the messages; at most 128 entries and SSIZE_MAX bytes are offered, and all that there is unless one of these limits was met; what went out and what remains is the original; finished are exactly the messages looked at with nothing left; the result is an error only for an error other than EAGAIN. |
| SendChain.Gather | src/gf_message.c:743-778 | The vector holds a beginning of the unsent bytes of the messages taken, within the limits, and everything if neither was met. |
| SendChain.GatherMsg | src/gf_message.c:748-768 | The same for one message. |
| SendChain.Drain | src/gf_message.c:806-831 | One message loses exactly the first bytes, is complete if and only if nothing is left, and hands on what was sent beyond it. |
| SendChain.Settle | src/gf_message.c:794-832 | The same with nothing sent any more, where a message without bytes is complete. |
| SendChain.Postprocess | src/gf_message.c:794-832 | All messages looked at lose the first n bytes of their concatenation; the finished ones are those left empty, in order. |
| ByteQueue.RestConserves | src/gf_message.c:784-832 | What is taken and what the messages keep is the original. |
| ByteQueue.RestShape | src/gf_message.c:806-826 | A message behind the n-th byte keeps everything, one before it nothing, and the one at it its rest. |
| ByteQueue.FinishedPrefix | src/gf_message.c:828-831 | When no message is empty the finished ones are the first of the queue. |
| ByteQueue.OvertakesEmpty | src/gf_message.c:799-803 | One message is finished behind another that is not if and only if a message without bytes stands behind one that is not finished. |
| RecvChain.Conn.RecvChain | src/gf_message.c:642-691 | For every size of the read and every parser that keeps the mark inside the last mbuf and makes no message of nothing: the completed messages and the pending one together are the received stream, and each completed message has the size the parser gave it; all calls of the parser but the last completed a message whose outcome had neither error nor quit; the last one alone says whether there is one more message and which error is left, and input ends with it or with an empty read; a message that is still pending was last judged unfinished, with nothing skipped behind the mark. Without an error in an outcome, a verdict or the read there is none in the connection. The loop ends. |
| RecvChain.Conn.ParseAll | src/gf_message.c:670-689 | The same for the loop without the read. |
| RecvChain.Conn.ParseNext | src/gf_message.c:670-689 | A next message has fewer unparsed bytes than the one before, so the loop ends. |
| RecvChain.Conn.MsgParse | src/gf_message.c:610-639 | What each verdict of the parser does: OK completes the message and passes on what is left, AGAIN and REPAIR keep it pending with its mark moved on, anything else is an error of the connection. |
| RecvChain.Conn.Decide | src/gf_message.c:622-638 | A completed message is delivered with the bytes parsed and its outcome counts; an error of the parser is an error of the connection; any other verdict changes neither error nor end of input. |
| RecvChain.Conn.MsgParsed | src/gf_message.c:553-591 | The message is delivered with what was parsed; the next one exists exactly if bytes are left, and has them. |
| RecvChain.Conn.RecvNext | src/gf_request.c:402-454 | At the end of the stream an incomplete message is dropped and there is no next one; otherwise the pending message, or a new one if asked for. |
| RecvChain.Conn.RecvDone | src/gf_message.c:556-591 | Nothing is lost between a message and the one behind it; quit ends the input, and the error of the outcome, and no other, is left in the connection. |
| RecvChain.Conn.Room | src/gf_message.c:649-658 | There is always an mbuf with room for at least a byte. |
| RecvChain.Conn.Store | src/gf_message.c:660-668 | The bytes read are part of the pending message; no bytes are the end of the stream. |
| ServerConn.Conn.Pairing | src/gf_request.c:298-399 | In every reachable state the k-th non-empty response was taken for the k-th written request that expects one; as long as requests were written in turn that is the k-th such request forwarded, and the requests that expect a response are those answered, those waiting for theirs and those not yet written, in this order. |
| ServerConn.Conn.WireOrder | src/gf_message.c:784-832 | As long as requests were written in turn the bytes on the wire are a beginning of the requests forwarded, and contain all that left the in queue. |
| ServerConn.Conn.Enqueue | src/gf_request.c:298-319 | A forwarded request waits behind all others, with all its bytes to send, and the order in which requests were written stays that in which they were forwarded. |
| ServerConn.Conn.SendNext | src/gf_request.c:714-754 | The request behind the one being sent, or the first; none at the end. |
| ServerConn.Conn.HandOut | src/gf_message.c:743-784 | A pass takes the first requests of the in queue. |
| ServerConn.Conn.SendDone | src/gf_request.c:757-780 | A written request leaves the in queue, and waits in the out queue exactly if it expects a reply. |
| ServerConn.Conn.SendPass | src/gf_message.c:784-832 | Whatever the kernel takes of what the first requests of the in queue have left, exactly that goes to the wire and from the requests; those with nothing left move over, those with no reply excepted. Requests stay in turn if and only if no request without bytes is finished behind one that is not; if every request has something left they do, the finished ones are the first, and every one that remains has something left. |
| ServerConn.Conn.WriteOne | src/gf_message.c:797-831 | One message loses what was sent of it to the wire and leaves the queue exactly if nothing is left. |
| ServerConn.Conn.WriteAll | src/gf_message.c:794-832 | The same for all messages of a pass. |
| ServerConn.Conn.Transmit | src/gf_message.c:806-826 | Bytes sent of the first request are on the wire and no longer to be sent. |
| ServerConn.OutOfTurn | src/gf_message.c:799-803 | A run in which an empty request overtakes another, and the response that comes first is taken for it. |
| ServerConn.Conn.RecvDone | src/gf_response.c:152-302 | An empty response is filtered; a stray one, or one that says the server fails, condemns the connection and answers nothing; any other answers the first waiting request, which leaves the queue, also when it is swallowed, and is linked with it both ways when it is not. |
| ServerConn.ExpectingConcat | src/gf_request.c:366-376 | The requests expecting a reply of two runs together are those of the one and those of the other. |
| Fragments.ReqDone | src/gf_request.c:138-216 | The answer, cached or counted or scanned, is that of a full scan of the group, also after its owner has left; a cached answer is never taken back; post_coalesce has been called once exactly if the group was found done. |
| Fragments.ReqError | src/gf_request.c:226-295 | The answer, cached or scanned, is that of a full scan of the group, also after members have left; an error that a scan finds is known to the whole run of neighbours afterwards. |
| Fragments.ScanDone | src/gf_request.c:170-190 | Yes only if the whole run of neighbours with this frag_id is done, no only if one with it is not. |
| Fragments.ScanError | src/gf_request.c:242-276 | Yes only if a request with this frag_id is in error, no only if the whole run of neighbours is free of errors. |
| Fragments.MarkDone | src/gf_request.c:192-208 | Every neighbour in the run is marked and counted. |
| Fragments.Conclude | src/gf_request.c:192-216 | The whole group is marked done, and coalesced once. |
| Fragments.MarkError | src/gf_request.c:278-294 | Every neighbour in the run gets the mark, and no request outside of it. |
| Fragments.CountFull | src/gf_request.c:160-168 | nfrag_done equals nfrag exactly if all are done, so the shortcut on the counters is right. |
| Fragments.StretchIsGroup | src/gf_request.c:170-208 | The run of neighbours with a frag_id is the group, when the group is all in the queue. |
| Fragments.NoErrorSeen | src/gf_request.c:242-276 | A scan that meets no error in the queue means no error in the group, also among members that have left. |
| Fragments.MemberLeaves | src/gf_request.c:379-385 | Once the group is done, and its error if any is known to those that stay, a member may leave. |
| Fragments.FinishFragment | src/gf_response.c:244-282 | A fragment that is finished is counted once, no cached answer becomes wrong, and its group is in error afterwards exactly if it was before or this fragment is. |
| Fragments.CountOneMore | src/gf_response.c:262-263 | Finishing one that was not finished is one more. |
| Fragments.StandsEnter | src/gf_request.c:358-364 | A group that stands together at the end of the queue still does with its next member. |
| Fragments.StandsDrop | src/gf_request.c:379-385 | Dequeuing any other request leaves a group standing together. |
| ClientConn.Conn.WireOrder | src/gf_response.c:305-382 | In every reachable state the bytes written are a beginning of the responses to all requests that ever entered, in the order of their arrival, whatever order they were finished in, and all of them when no request waits. A request without a response of its own belongs to a group in error, and one before it has the error response. In front of a response there is more only for a request in error. |
| ClientConn.Conn.WireInOrder | src/gf_response.c:305-382 | As long as no response was spoilt the bytes written are a beginning of the responses and nothing else, and all of them when no request waits. |
| ClientConn.SpoiltResponse | src/gf_response.c:339-359 | A run in which a response is spoilt: one byte of an error response of two is written, and then all of it, so the client gets three. |
| ClientConn.Conn.SendPass | src/gf_message.c:844-867 | One pass: what is handed out is the beginning, up to the limit or the first request that is not done, of the queue less the members of groups that made way for an error response; an error response is made exactly for those handed out whose group is in error; what is offered is the rest of every other response and the whole of an error response; the first n bytes of it are written, and exactly the requests with nothing left leave the queue. Bytes are spoilt if and only if at first the first request is done and in error with a part of a response written, and then it is that part, in front of that request. |
| ClientConn.Conn.Offer | src/gf_message.c:743-778 | What a pass offers to the kernel: the rest of each response handed out, or a new error response; and when that spoils a part already written. |
| ClientConn.Conn.HandOut | src/gf_message.c:743-778 | What is handed out is a prefix of the out queue in which every request is done, and it stops only at the limit, at the end or at a request that is not done; an error response is made exactly for those among them whose group is in error, the rest of these groups leaves the queue and no other request does, and every other response is as it was. |
| ClientConn.Conn.SendNext | src/gf_response.c:305-360 | The next request of the queue if it is done, with nothing in front of it changed, its group made into one error response if it is in error and all other responses and requests as they were; or none, if it is not done, and no change. The connection is done exactly if it was or the queue is empty at the end of input. |
| ClientConn.Conn.HandOver | src/gf_response.c:339-359 | A request gets one error response, to be sent from its start, and its group makes way for it, exactly if the group is in error; any other keeps its response and what is left of it, and no other response changes. |
| ClientConn.Conn.MakeError | src/gf_response.c:54-93 | The request stays with the error response to be sent from its beginning, the rest of its group leaves the queue for it and no other request does; what had been written of its former response stays on the wire in front of it. |
| ClientConn.Conn.Collapse | src/gf_response.c:67-80 | Exactly members of the group behind the request leave the queue, and none of the group remains but it. |
| ClientConn.Conn.Deliver | src/gf_message.c:794-832 | The first n bytes of what was handed out are on the wire and every request keeps its rest; exactly the requests with nothing left are answered and have left the queue. |
| ClientConn.Conn.DeliverOne | src/gf_message.c:794-832 | One message loses what was sent of it to the wire, and leaves the queue exactly if nothing is left. |
| ClientConn.Conn.Retire | src/gf_response.c:363-382 | A request with its response written leaves the queue, and all that is known about the others stays true. |
| ClientConn.Conn.Transmit | src/gf_message.c:806-826 | Bytes sent of the first response are on the wire and no longer to be sent. |
| ClientConn.Conn.Dequeue | src/gf_request.c:379-385 | Any request that may be answered can leave without making a cached answer wrong. |
| ClientConn.Conn.AskDone | src/gf_request.c:138-216 | In every reachable state: whether the request and its whole group are done. |
| ClientConn.Conn.AskError | src/gf_request.c:226-295 | In every reachable state: whether there is an error in its group. |
| ClientConn.Conn.Wake | src/gf_response.c:271-279 | Sending is armed exactly if the first request of the queue is done. |
| ClientConn.Conn.Enqueue | src/gf_request.c:358-364 | A request that was not cut up goes behind all others, and is owed a response from now on. |
| ClientConn.Conn.BeginGroup | src/gf_request.c:694-707 | The owner of a group enters the queue, done itself, with its fragments to come. |
| ClientConn.Conn.EnterFragment | src/gf_request.c:702-707 | The fragments follow it one by one, each owed a response, and the group is whole after the last. |
| ClientConn.Conn.FinishSingle | src/gf_response.c:262-263 | A response, or a failure, for a request that was not cut up, at any time: it is done, in error exactly if it is to be, its response is the one given, with all of it to be sent, and all invariants stay. |
| ClientConn.Conn.FinishMember | src/gf_response.c:262-263 | The same for a fragment, at any time and in any order: it is done and counted, in error exactly if it is to be, which puts its group in error and nothing else does; no other request is finished by it. |
| Ledger.TextDue | src/gf_response.c:305-382 | What was written up to any request is a beginning of what is due up to it, and all of it if none of these waits. |
| Ledger.Root | src/gf_response.c:54-93 | Following the requests for which others left ends at one with an error response of the same group. |
| Ledger.SoundRemake | src/gf_response.c:54-93 | A group that makes way for an error response changes nothing of what was written, and exactly its other members leave the queue. |
| Ledger.SoundMore | src/gf_message.c:806-826 | The first request that waits gets more of its response: nothing else in the ledger is touched, the written text grows by exactly these bytes, and nothing is written behind a request that waits. |
| Ledger.SpoiltFirst | src/gf_response.c:339-359 | Error responses spoil nothing but what was written for the first request of the queue, and spoil that exactly if it gets one. |
| Md5.DigestOf | src/hashkit/gf_md5.c:197-294 | For every message and every way to cut it into calls of MD5_Update the result is the digest of the message: the compression function folded over the message padded as in sections 3.1 and 3.2 of RFC 1321. |
| Md5.Ctx.Update | src/hashkit/gf_md5.c:209-242 | Whatever was taken in before, the registers have the whole blocks, the buffer the rest and the counters the length of the message so far. |
| Md5.Ctx.Final | src/hashkit/gf_md5.c:245-294 | The digest of what was taken in, and a context that is all zero. |
| Md5.Ctx.Pad | src/hashkit/gf_md5.c:248-268 | The padding is behind the message, in one block or in two. |
| Md5.Ctx.Count | src/hashkit/gf_md5.c:214-219 | The counters take the size of an update of any length, with the carry found by comparison. |
| Md5.Ctx.Body | src/hashkit/gf_md5.c:89-194 | The compression function over all the blocks. |
| Md5.Ctx.Block | src/hashkit/gf_md5.c:102-190 | One block: sixty-four steps as in section 3.4 of RFC 1321, and the sums. |
| Md5.Ctx.constructor | src/hashkit/gf_md5.c:197-206 | The registers of section 3.3 of RFC 1321 and an empty message. |
| Md5.Round1 | src/hashkit/gf_md5.c:108-124 | The first sixteen steps with the source's constants, words and shifts. |
| Md5.Round2 | src/hashkit/gf_md5.c:126-142 | The second sixteen. |
| Md5.Round3 | src/hashkit/gf_md5.c:144-160 | The third sixteen. |
| Md5.Round4 | src/hashkit/gf_md5.c:162-178 | The fourth sixteen. |
| Md5.FastForms | src/hashkit/gf_md5.c:47-48 | The forms of F and G without an and-not are those of RFC 1321. |
| Md5.StepIs | src/hashkit/gf_md5.c:55-58 | The STEP macro computes the step of RFC 1321, with the sums in its order and the rotation by shift and mask. |
| Md5.FoldConcat | src/hashkit/gf_md5.c:89-194 | Folding over whole blocks and then over what follows is folding over both. |
| Md5.PaddedLength | src/hashkit/gf_md5.c:248-280 | The padded message is a number of whole blocks. |
| Md5.CountsBits | src/hashkit/gf_md5.c:270-280 | The two counters, shifted, are the length in bits modulo 2^64. |
| Md5.CountsAdd | src/hashkit/gf_md5.c:214-219 | Adding to the 29-bit counter with the carry and the high part keeps that so. |
| Md5.TwoWords | src/hashkit/gf_md5.c:270-280 | Eight little-endian bytes are four of the low word and four of the high word. |
| Md5.WordRoundTrip | src/hashkit/gf_md5.c:74-79 | Four bytes of a word, read back, are the word. |
| Md5.HashMd5 | src/hashkit/gf_md5.c:301-321 | The hash of a key is the first register of its digest. |
| Md5Vector.Abc | src/hashkit/gf_md5.c:301-321 | The definition that all of this is proved against gives the digest of "abc" in appendix A.5 of RFC 1321. |
| StatsBuffers.Run | src/gf_stats.c:661-1011 | Every interleaving of updates, times, swaps and an aggregation metric by metric: for counters and gauges sum plus what of shadow is not yet added plus current is the sum of all updates; for timestamps, zero included, the three arrays show the time that the events alone determine, and that is the last time set if and only if this was not set to zero before a swap took it over. |
| StatsBuffers.LastShown | src/gf_stats.c:1097-1109 | Setting a time to zero brings back the time of the last swap, and the last time is lost exactly if that is another one. |
| StatsBuffers.NeverTakenBack | src/gf_stats.c:1097-1109 | Where no time is set to zero none is lost. |
| StatsBuffers.Stats.Step | src/gf_stats.c:661-1011 | One step of either thread keeps that, and changes flags, totals and times as the events say. |
| StatsBuffers.Stats.Add | src/gf_stats.c:1037-1094 | An update is counted once. |
| StatsBuffers.Stats.SetTs | src/gf_stats.c:1097-1109 | A time is shown from now on; zero brings back the time of the last swap. The last time set is still shown always for a time that is not zero, and for zero if and only if no reading in current is lost by it. |
| StatsBuffers.ZeroTakesBack | src/gf_stats.c:1097-1109 | A run in which a time is set and then set to zero, and lost. |
| StatsBuffers.Stats.Swap | src/gf_stats.c:980-1011 | Nothing happens while the aggregator has work or when nothing is new; otherwise current goes over to shadow and begins from zero, and no total changes. |
| StatsBuffers.Stats.Begin | src/gf_stats.c:661-671 | The aggregator works only on a shadow that was handed over. |
| StatsBuffers.Stats.AggregateMetric | src/gf_stats.c:626-658 | One metric of shadow joins sum, and the totals stay. |
| StatsBuffers.Stats.End | src/gf_stats.c:688-692 | The flag goes back only when all metrics have been added. |
| StatsBuffers.Stats.Aggregate | src/gf_stats.c:661-692 | After an undisturbed aggregation sum is everything but what is in current. |
| StatsReport.Buffer.MakeRsp | src/gf_stats.c:695-752 | In a buffer of the computed size the report never fails and never leaves the buffer, for all names and 64-bit values; it is the printed JSON document and a newline if and only if there is a pool, and has a comma too many if there is none. |
| StatsReport.Report | src/gf_stats.c:325-752 | The buffer made for some pools takes every later report on pools and metrics of the same names, and a reader of JSON finds every name and value in it. |
| StatsReport.ReportRead | src/gf_stats.c:695-752 | A reader of JSON finds in a report on pools the head, every pool, server and metric under its name, in its place and with its value, and a newline behind, if and only if no name has a character that would have to be escaped. |
| StatsReport.StrayComma | src/gf_stats.c:528-546 | A reader of JSON does not get through a report without pools. |
| StatsReport.Buffer.constructor | src/gf_stats.c:325-417 | The buffer has the computed cost of all names, numbers and punctuation, rounded up to eight. |
| StatsReport.Buffer.Snprintf | src/gf_stats.c:441-448 | The bounded print writes nothing outside its room. |
| StatsReport.Buffer.Append | src/gf_stats.c:430-473 | A piece of text is behind the others if and only if it fits, and the result says so. |
| StatsReport.Buffer.AddString | src/gf_stats.c:430-450 | The member is there, with a separator, and within its computed cost. |
| StatsReport.Buffer.AddNum | src/gf_stats.c:453-473 | The same for a number of at most twenty characters. |
| StatsReport.Buffer.BeginNesting | src/gf_stats.c:549-568 | An object is opened, within its cost. |
| StatsReport.Buffer.EndNesting | src/gf_stats.c:571-605 | After any members the tail is one of the two that are known, and the last separator gives way to the closing brace. |
| StatsReport.Buffer.CopyMetric | src/gf_stats.c:608-623 | All metrics are there, within their cost. |
| StatsReport.Buffer.AddServer | src/gf_stats.c:722-740 | A server with its metrics is one more member of the pool. |
| StatsReport.Buffer.AddPool | src/gf_stats.c:709-746 | A pool with its metrics and servers is one more member of the document. |
| StatsReport.Buffer.AddHeader | src/gf_stats.c:476-525 | The head of the document is there, within its cost. |
| StatsReport.Buffer.AddFooter | src/gf_stats.c:528-546 | The last character gives way to the closing brace and a newline. |
| StatsReport.Footer | src/gf_stats.c:528-546 | What that makes of the text: the document with a pool, a stray comma without. |
| StatsReport.SamePoolsCost | src/gf_stats.c:325-417 | The cost depends on names only. |
| StatsJson.Closes | src/gf_stats.c:571-605 | The text after any non-empty list of members ends in one of two ways, and patching either closes the object around exactly these members. |
| StatsJson.TrailPrints | src/gf_stats.c:430-473 | Adding members one by one gives the printed members and one separator. |
| StatsJson.EndsInBrace | src/gf_stats.c:571-605 | Members that end with an object print with a brace at the end. |
| StatsJson.DecLength | src/gf_stats.c:453-473 | No 64-bit number prints longer than the twenty characters computed for it. |
| JsonReader.DecRead | src/gf_stats.c:453-473 | A printed number is read back as that number by a reader that takes the first digit for the most significant and no leading zero. |
| JsonReader.ReadBack | src/gf_stats.c:430-605 | The printed text of nested objects of plain strings and numbers is read back as that document, and so is what follows. |
| JsonReader.ReadBackIff | src/gf_stats.c:430-605 | It is read back if and only if no string in it has a quote, a backslash or a control character. |
| JsonReader.QuoteLost | src/gf_stats.c:430-450 | A name that is a single quote is not read back. |
| JsonReader.CommaBrace | src/gf_stats.c:528-546 | A comma before the closing brace is not read. |
| Continuum.Dispatch | src/hashkit/gf_ketama.c:222-246 | The binary search finds the server of the first point in use that is not below the hash, or of point 0 if all are below it, also with equal points. |
| Continuum.OwnerIs | src/hashkit/gf_ketama.c:222-246 | The server of a hash is that of the first point not below it, or of point 0 behind the last. |
| Continuum.FirstIs | src/hashkit/gf_ketama.c:222-246 | The first point not below a hash is unique. |
| Continuum.OnlyItsOwn | src/hashkit/gf_ketama.c:222-246 | Taking away the points of one server changes only hashes of that server. |
| Continuum.SortSorts | src/hashkit/gf_ketama.c:198-199 | Sorted, and the same points. |
| Continuum.SortedUnique | src/hashkit/gf_ketama.c:44-55 | With distinct values there is one sorted order only. |
| Continuum.EjectionMoves | src/hashkit/gf_ketama.c:198-246 | Between any two sorted continua of which the second lacks one server's points only hashes of that server change hands. |
| Pool.Census | src/hashkit/gf_ketama.c:85-112 | The live servers and their weight are counted, next_rebuild is the earliest retry of a server that is not live, or 0 if there is none, and live servers lose their retry time. |
| Pool.TallyStep | src/hashkit/gf_ketama.c:89-110 | One more server keeps these three true. |
| Pool.BuildBounds | src/hashkit/gf_ketama.c:149-197 | With a live server there are at least 160 and at most 160 points for each live server. |
| Pool.BuildWeighs | src/hashkit/gf_ketama.c:161-162 | The number of points is at most the exact share of the weight, and short of it by less than four for each live server. |
| Pool.BuildLive | src/hashkit/gf_ketama.c:151-192 | All points are of live servers, so all indices are below the server count. |
| Pool.BuildWithout | src/hashkit/gf_ketama.c:151-195 | With equal shares, a server that is no longer live takes out exactly its points, also when the clock has moved on. |
| Pool.EqualShare | src/hashkit/gf_ketama.c:161-162 | With equal weights every live server has forty groups of four points. |
| Pool.EjectionMovesOnlyItsOwn | src/hashkit/gf_ketama.c:58-246 | With equal weights and distinct points, between two rebuilds that find the same servers live but for one, only the hashes of that one move. |
| Pool.ModulaShares | src/hashkit/gf_modula.c:113-155 | Each live server has exactly as many residues modulo the total weight as its weight says, and no other server has any. |
| Pool.ModulaAt | src/hashkit/gf_modula.c:113-155 | A residue belongs to the live server whose weight, laid out behind those of the live servers before it, covers the residue. |
| Pool.BuildHas | src/hashkit/gf_ketama.c:149-197 | The points of a rebuild are exactly the four values of each group of each live server. |
| Pool.PointsAt | src/hashkit/gf_ketama.c:170-193 | Place x of group g of a server is its point 4g + x. |
| Ejection.ServerPool.PutServer | src/hashkit/gf_ketama.c:170-193 | The points of a server go into the next slots, group by group and value by value, and no others change. |
| Ejection.ServerPool.FillKetama | src/hashkit/gf_ketama.c:149-197 | All writes are inside the allocated slots, and the points in use are those of the live servers. |
| Ejection.ServerPool.FillModula | src/hashkit/gf_modula.c:113-132 | The same for the residues. |
| Ejection.ServerPool.SortPoints | src/hashkit/gf_ketama.c:198-199 | The points in use are sorted and still the same. |
| Ejection.ServerPool.Reserve | src/hashkit/gf_ketama.c:130-143 | There is room for all live servers, or for all their weight. |
| Ejection.ServerPool.Rebuild | src/hashkit/gf_ketama.c:124-199 | The continuum is that of the live servers. |
| Ejection.ServerPool.Run | src/gf_server.c:825-842 | After a rebuild at any time what the pool says about its servers and, if one is live, its continuum are right; the servers that are live lose their retry time and all others keep theirs. |
| Ejection.ServerPool.constructor | src/gf_server.c:851-899 | At first all servers are live. |
| Ejection.ServerPool.Update | src/gf_server.c:589-629 | OK only with a live server and a continuum that belongs to it; an error only with none, when the next rebuild is not yet due; every server whose retry time is past is live again after it; a rebuild exactly if one is due, and no change of pool, continuum or retry times otherwise. |
| Ejection.ServerPool.Failure | src/gf_server.c:272-317 | At the limit the count begins again and the server is away until the retry time; below it only the count changes; nothing without ejection; no other server loses or gets a retry time that is not due. On a continuum with equal weights and distinct points every hash that was not on this server stays where it was, if the rebuild finds the other servers as they were. |
| Ejection.ServerPool.OnlyItsOwn | src/hashkit/gf_ketama.c:58-246 | The continuum of an earlier rebuild still says where a hash is, unless it was on the one server that has gone since. |
| Ejection.ServerPool.Ok | src/gf_server.c:572-586 | A response after failures lifts the retry time, any other changes nothing. |
| Ejection.ServerPool.Pending | src/gf_server.c:589-615 | next_rebuild is 0 exactly if all servers were live at the last rebuild, and otherwise the earliest retry of one that was not. |
| Ejection.ServerPool.Dispatch | src/gf_server.c:680-699 | The index is below the server count, and of a server that was live at the last rebuild: on a continuum that of the first point not below the hash or of point 0, with modula that of the live server whose weight covers the residue. |
| KeyIndex.Index | src/gf_server.c:649-699 | For every key and tag the index is valid, and that of the hash of the tagged part, or of the whole key if there is none, with 0 as the hash of nothing. |
| KeyIndex.HashedPart | src/gf_server.c:661-675 | The part between the first opening character and the first closing one behind it, if it is not empty, and otherwise the whole key. |
| KeyIndex.TagUnique | src/gf_server.c:661-675 | A key has at most one such part. |
| KeyIndex.Find | src/gf_string.h:140-150 | The first place of the character, or none. |
| Conf.Accepts | src/gf_conf.c:954-1086 | On the events of any document the validator's automaton accepts exactly the documents that map names of pools to directives, with a scalar or a list of scalars each and one list in every pool, and never meets an end without its start. |
| Conf.DirectivesAre | src/gf_conf.c:954-1086 | The directives of a pool conform exactly if all keys are scalars, all values scalars or lists of scalars, and one value is a list. |
| Conf.Validate | src/gf_conf.c:954-1086 | The loop over the events gives the answer of the automaton: yes if and only if the document conforms. |
| Conf.RunElems | src/gf_conf.c:954-1086 | Inside a list scalars pass, and anything else is an error. |
| Conf.RunDirective | src/gf_conf.c:954-1086 | A directive passes if and only if its key is a scalar and its value a scalar or the pool's first list of scalars. |
| Conf.RunPool | src/gf_conf.c:954-1086 | The directives of a pool pass if and only if they conform, with exactly one list. |
| Conf.RunPools | src/gf_conf.c:954-1086 | The pools pass if and only if they all conform. |
| ConfParser.ParsesAccepted | src/gf_conf.c:625-720 | On every document that the validator accepts the parser never pops an empty stack and never breaks an assertion; with no empty scalar and handlers that succeed it ends at depth 0 with an empty stack after exactly the calls of the document, in its order, and otherwise it can only fail after some of them. |
| ConfParser.ParsesExactly | src/gf_conf.c:625-720 | The parser gets to the end of an accepted document if and only if no scalar is empty and every call succeeds; otherwise it stops at the first call that fails, with all before it made and none behind it, or before it at an empty scalar. |
| ConfParser.ParsedPools | src/gf_conf.c:625-720 | The same from between any two pools. |
| ConfParser.ParsedPool | src/gf_conf.c:625-720 | The same for the directives of a pool. |
| ConfParser.ParsedPair | src/gf_conf.c:625-720 | A directive calls the handler with its key and value, or its key and every element, and leaves the stack as it was. |
| ConfParser.ParsedList | src/gf_conf.c:625-720 | A list calls the handler with its key and every element, and pops the key at its end. |
| ConfParser.Parser.ParseCore | src/gf_conf.c:625-720 | The recursive loop with its stack, depth and list flag does what the automaton does. |
| ConfParser.Parser.OnText | src/gf_conf.c:690-720 | A scalar is pushed, and handled or kept, as in the automaton; an empty one fails. |
| ConfParser.Parser.Leaf | src/gf_conf.c:508-546 | The handler is called for the key and value on the stack, and then the value goes, and outside of a list the key with it. |
| ConfParser.Parser.Handler | src/gf_conf.c:508-546 | One call, for a new pool with one argument and for a directive of the last pool with its key and value otherwise. |
| ConfParser.Parser.ParseDocument | src/gf_conf.c:723-748 | An accepted document is parsed to its end, with exactly its calls, if and only if it has no empty scalar and every call succeeds; without an empty scalar it stops at the first call that fails. |
| ConfParser.Create | src/gf_conf.c:1331-1372 | A document that does not conform is refused before any handler call; one that does is parsed with exactly its calls if and only if it has no empty scalar and every call succeeds, and otherwise with the first of them, the last of which fails unless a scalar is empty. |
| Jenkins.HashAt | src/hashkit/gf_jenkins.c:76-230 | At every address the hash of a key depends on its bytes alone, whatever branch reads it and whatever memory lies behind it. |
| Jenkins.HashWords | src/hashkit/gf_jenkins.c:87-125 | The branch with masked 32-bit reads computes the bytewise definition for every length, reading no word beyond the one the key ends in. |
| Jenkins.HashHalves | src/hashkit/gf_jenkins.c:126-173 | The branch with 16-bit reads computes it too. |
| Jenkins.HashBytes | src/hashkit/gf_jenkins.c:174-226 | And the branch with single bytes, high to low in the last block. |
| Jenkins.TailWords | src/hashkit/gf_jenkins.c:107-125 | The last block with the bytes behind the key masked off, for each of the twelve lengths. |
| Jenkins.TailHalves | src/hashkit/gf_jenkins.c:141-173 | The last block of halves and a byte, for each of the twelve lengths. |
| Jenkins.TailBytes | src/hashkit/gf_jenkins.c:203-226 | The last block bytewise, for each of the twelve lengths. |
| Jenkins.Masks | src/hashkit/gf_jenkins.c:107-123 | Masking a word leaves its low bytes. |
| Jenkins.Halves | src/hashkit/gf_jenkins.c:141-171 | Sums of halves, shifted, are sums of words. |
| Jenkins.ByteSums | src/hashkit/gf_jenkins.c:203-225 | Sums of shifted bytes in either order are sums of words. |
| JenkinsVector.Known | src/hashkit/gf_jenkins.c:76-230 | The bytewise definition, from the start value 0, gives the hash published with lookup3 for "Four score and seven years ago", 0x17770551. |
| JenkinsVector.Initval | src/hashkit/gf_jenkins.c:55-82 | The source starts from 13. |

## Left out

- ClientConn.Conn.HandOut: stops at any given number of requests, in place of the limits on entries and bytes, which SendChain.Send models; its responses are byte sequences, not mbufs.
- ClientConn.Conn.DeliverOne: asks whether bytes of the response are left, where the source asks `mlen` when nothing is left of what was sent; SendChain.Send proves that the two agree for every message that stays in the queue.
- ClientConn.Conn.FinishSingle: any bytes may be the response; what the parsers and the hooks make of it is not part of this model.
- ClientConn.Conn.EnterFragment: the bytes of a response come with the response, for each fragment; what `post_coalesce` does to the responses of a group before they are handed out is not part of this model, only that it is called once.
- ServerConn.Conn.HandOut: stops at any given number of requests, in place of the limits on entries and bytes, which SendChain.Send models.
- ServerConn.Conn.WriteOne: asks whether bytes are left as ClientConn.Conn.DeliverOne does.
- Fragments.FinishFragment: counts every finished fragment at its owner, as the response hook and the failed connect do; the paths that fail in between without counting (`src/gf_request.c:606-622`) are not part of this model.
- RecvChain.Conn.RecvNext: has the end of input of a client; that of a server connection with a response half received is an error there (`src/gf_response.c:97-149`) and is not part of this model.
- RecvChain.Conn.Decide: has one number for the error of a parser and of a failed read, in place of `errno`; failed allocations are not part of this model.
- Mbufs.Mbuf.Split: has no precopy handler, as no caller passes one; `msg_prepend_format` is not part of this model.
- SendChain.Send: mlen and byte counts are unbounded, as no message is near the end of its 32-bit counter; the messages that `send_next` will hand out are given as a sequence.
- Timers.CoreTimeout: has no clock that fails; the clock does not go backwards. Which requests a closed connection takes down is given for each connection.
- Timers.Close: any deletion of timers with an error for their requests; the queues that `server_close` drains are not part of this model, and neither are `core_stop` and `req_server_enqueue_imsgq_head`.
- ServerConn.Conn.RecvDone: the failure hook is a flag of the response; no claim is made about a connection after it is condemned.
- Pool.BuildBounds: shares of points are exact quotients rounded down, where the source rounds `float` numbers; weights do not overflow their sum.
- Pool.BuildWeighs: the same exact quotients.
- Pool.EqualShare: the same exact quotients.
- Ejection.ServerPool.PutServer: the value of a point is any function of server, group and place in the group, in place of MD5 of the name.
- Ejection.ServerPool.SortPoints: an insertion sort stands for `qsort`, of which only the sorted permutation is used.
- Ejection.ServerPool.Update: a clock that fails or goes backwards and a failed allocation are not part of this model; the random distribution and the other key hashes are left out as easy members.
- StatsBuffers.Stats.Step: memory ordering of the two threads is sequential, and counters do not overflow 64 bits.
- StatsReport.Buffer.MakeRsp: needs what the code has, at least one metric for every pool and server and a buffer of at most INT_MAX bytes; names are taken as they are, with no escaping, as in the source; a name with a NUL is printed up to it.
- Md5.Ctx.Update: the words are read bytewise in little-endian order, which the source does directly on machines that allow it; the overflow of the 64-bit size argument in a sum is unobservable behind the mask and is not modelled.
- Jenkins.HashAt: is little-endian.
- Jenkins.Masks: a mask of low bytes is a remainder by definition; that the bitwise and of the source is one is not proved.
- Conf.Validate: libyaml is any stream of events of one document, and its errors, tokens and aliases are left out, with `conf_validate_document` and `conf_validate_tokens`.
- ConfParser.Parser.ParseDocument: the loops of `conf_begin_parse` and `conf_end_parse`, which only skip the ends of the stream, are one step each; the commands behind the handler are any function of the call.
- ConfParser.Create: has the validation of the structure and the parse, without the checks on documents and tokens before it and the validation of the parsed values after it.
- KeyIndex.Index: an empty part hashes to 0, and nothing else is said about the key hash.
- A failed `fragment` hook, which goes on after its error path without returning (`src/gf_request.c:681-692`).
- Pointer tricks of the queue macros: queues are sequences with ownership.
- Sockets, events, accepting and listening, addresses, signals, logging and the command line.
