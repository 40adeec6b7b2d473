# Verified models of the pilight runtime

pilight is a home-automation daemon. This project models the parts of its code that are hardest to get right and
proves what they promise: the containers and protocols of the libuv that pilight carries with it (`libs/libuv`), the
Intel HEX files of its avrdude (`libs/avrdude`), the queues of the daemon (`daemon.c`) and one list sort (`send.c`).
`dafny verify dfyconfig.toml` checks the whole project.

| file | models |
|---|---|
| `RbShape.dfy`, `RbTree.dfy` | the red-black tree of `tree.h`: rotations, insertion and removal in place, with the repair of colours |
| `Splay.dfy` | the top-down splay tree of `tree.h` |
| `Heap.dfy` | the pointer-linked binary heap of `heap-inl.h` |
| `Rings.dfy` | the circular lists of `queue.h`, and their meaning as sequences |
| `ThreadPool.dfy`, `PoolSteps.dfy`, `PoolWakeups.dfy` | the thread pool of `threadpool.c`: phases of requests, what every step does, cancelling, sleeping and leaving of workers |
| `Async.dfy`, `AsyncSteps.dfy` | the wakeups of `unix/async.c`, and what every step does |
| `PoolAnswers.dfy`, `PoolAnswersRun.dfy` | both together: how the answers of the pool reach the loops, with a run from submission to answer |
| `Inet4.dfy`, `Inet6.dfy`, `Inet6Text.dfy`, `Inet6Grammar.dfy` | printing and parsing of addresses in `inet.c`, and the grammar of IPv6 texts |
| `IntelHex.dfy`, `IntelHexFormat.dfy` | writing and reading of Intel HEX files in `fileio.c`, and the format |
| `FsPoll.dfy` | the life of a poll context in `fs-poll.c` |
| `Bits.dfy`, `Watchers.dfy` | the watcher table of `unix/core.c` |
| `Handles.dfy` | active handles and closing, in `uv-common.h` and `unix/core.c` |
| `Daemon.dfy`, `DaemonSteps.dfy` | the three queues of `daemon.c` with their locks, and what every step does |
| `SortList.dfy` | `sort_list` of `send.c` |
| `Basics.dfy`, `Pointers.dfy`, `Powers.dfy` | shared notions |

## How the models are built

Containers are classes. Their fields are the fields of the source, and the memory of the elements is a map from
pointers to link fields that the methods update in the order of the source's assignments. A ghost field holds the
picture of the structure (a tree with a hole and its context, a sequence of slots, a sequence of list nodes), and the
invariant ties it to every link. A pointer carries the key of its element: the place of the element in the order that
the user's comparison defines. Any total preorder on the elements of one container has such keys.

Protocols are step systems. One step is one critical section or one atomic access of the source, any thread may take
the next step, and the guard of a step holds only what the program counter and the obligations of callers say. Each
module proves that every step keeps its invariant and follows valid pointers, and states its main results about every
state of every run. Fields marked as history serve the statements; guards use them only to say what callers owe, such
as not to submit a request that is in flight. What each step does is stated a second time without flags, counters and
links, in terms of sets and sequences, and proved of every step of every run; and for each system there are runs from
every initial state that reach what it is for.

Parsers, printers and arithmetic are functions, and the loops of the source are methods proved equal to them. Widths
matter where they can be reached: `unsigned int` in the heap, in the watcher table and in `ihex2b`, `unsigned char` in
the checksums.

## What the proofs show about the source

* `tree.h`: SPLAY_REMOVE returns the element it was given, which is the one it removed if and only if it was stored
  (`Splay.Head.Remove`; `Splay.RemoveAnother` is an input where it was not).
* `heap-inl.h`: in `heap_remove` the test of the removed last node against `heap->min` comes after `heap->min` was
  cleared, so it never holds.
* `inet.c`: the test for an embedded address with a run of seven words never takes effect, because word 6 is inside
  such a run; `::2` is printed as such.
* `fileio.c`: the reader accepts what the writer wrote if and only if no record has more than 122 bytes, although the
  writer takes up to 255. With 122 the newline arrives alone and is skipped. The caller uses 32.
* `fileio.c`: the comment above `ihex2b` says that the size of the buffer is honoured. A file can break this in two
  ways: the end of a data record wraps around 32 bits (`IntelHex.WrapEscapes`), or its address is below offsetaddr
  (`IntelHex.BelowEscapes`). These are all the ways there are (`IntelHex.WildExactly`), and a file without extended
  address records and without signs in its offsets has neither (`IntelHex.PlainSafe`).
* `fs-poll.c`: when the first stat is refused, `uv_fs_poll_start` frees the context while its timer stays in the handle
  queue of the loop (`FsPoll.DanglesExactly`).
* `daemon.c`: `send_queue` calls drivers with its lock held, and drivers enqueue. There is no deadlock as long as they
  enqueue to the same queue or a later one, and there can be one otherwise (`Daemon.CallAgainstOrder`).
* `unix/core.c`: `uv__io_start` admits the descriptor INT_MAX - 1, for which the capacity of the table wraps around to
  0; for every other descriptor the capacity is right.

## Model

| member | source | states |
|---|---|---|
| `RbTree.Head.constructor` | libs/libuv/tree.h:306-308 | an empty tree is valid |
| `RbTree.Head.RotateLeft` | libs/libuv/tree.h:342-360 | rewriting the links of one node turns the tree around a hole into the left-rotated tree, with all parent links right |
| `RbTree.Head.RotateRight` | libs/libuv/tree.h:362-380 | the same to the right |
| `RbTree.Head.InsertStepLeft` | libs/libuv/tree.h:413-429 | one pass of the loop, parent a left child: keeps the elements in order and the one permitted red-red violation, and moves it towards the root |
| `RbTree.Head.InsertStepRight` | libs/libuv/tree.h:430-446 | the same for a parent that is a right child |
| `RbTree.Head.InsertStep` | libs/libuv/tree.h:408-447 | one pass of the loop, with the choice between the two sides |
| `RbTree.Head.InsertColor` | libs/libuv/tree.h:407-449 | ends with a red-black tree that holds the same elements in the same order |
| `RbTree.Head.Attach` | libs/libuv/tree.h:615-625 | links a new red leaf at the place the search found, and repairs the tree |
| `RbTree.Head.Insert` | libs/libuv/tree.h:597-626 | returns NULL exactly if no stored element has the key, and then the new in-order sequence is the old one with the element put in; otherwise returns the stored element and changes nothing; all invariants are kept, and entries of elements outside of the tree are unchanged |
| `RbTree.Head.RemoveRedSiblingLeft` | libs/libuv/tree.h:460-464 | a red sibling is rotated away: the missing black node stays in the same place, below a red parent |
| `RbTree.Head.RemoveInnerNephewLeft` | libs/libuv/tree.h:473-482 | with a red inner nephew only, the sibling gets a red outer nephew |
| `RbTree.Head.RemoveOuterNephewLeft` | libs/libuv/tree.h:483-489 | with a red outer nephew, one rotation makes up for the missing black node and the whole tree is red-black |
| `RbTree.Head.RemoveStepLeft` | libs/libuv/tree.h:456-490 | one pass of the loop for a left child: the tree stays one black node short on one path only, which gets shorter, or is repaired |
| `RbTree.Head.RemoveRedSiblingRight` | libs/libuv/tree.h:493-497 | the mirror image of RemoveRedSiblingLeft |
| `RbTree.Head.RemoveInnerNephewRight` | libs/libuv/tree.h:506-515 | the mirror image of RemoveInnerNephewLeft |
| `RbTree.Head.RemoveOuterNephewRight` | libs/libuv/tree.h:516-522 | the mirror image of RemoveOuterNephewLeft |
| `RbTree.Head.RemoveStepRight` | libs/libuv/tree.h:491-524 | the mirror image of RemoveStepLeft |
| `RbTree.Head.RemoveColor` | libs/libuv/tree.h:451-528 | from a tree that is one black node short on one path to a red-black tree with the same elements in order |
| `RbTree.Head.RemoveSingle` | libs/libuv/tree.h:579-593 | an element with at most one child: the child takes its place |
| `RbTree.Head.FindSuccessor` | libs/libuv/tree.h:541-543 | the leftmost element of the right subtree, with the path to it |
| `RbTree.Head.TakeOver` | libs/libuv/tree.h:559-570 | the successor takes over links, colour and place of the removed element |
| `RbTree.Head.RemoveDouble` | libs/libuv/tree.h:539-578 | an element with two children: its successor moves into its place, and the rest keeps its order |
| `RbTree.Head.Remove` | libs/libuv/tree.h:530-595 | removes exactly the given element from the in-order sequence, keeps search order, parent links, colours and black heights, and leaves entries outside of the tree alone |
| `RbTree.Head.NFind` | libs/libuv/tree.h:647-665 | the first element that is not below the key, or NULL exactly if all elements are below it |
| `RbTree.Head.Next` | libs/libuv/tree.h:668-687 | the in-order successor, or NULL after the last element |
| `RbTree.Head.Climb` | libs/libuv/tree.h:675-685 | climbing parent links ends at the first element after the subtree |
| `RbShape.RedBlackHeight` | libs/libuv/tree.h:53-61 | the promised height: 2^height <= (n + 1)^2 in every red-black tree |
| `RbShape.PlugRedBlack` | libs/libuv/tree.h:53-58 | when the colour rules hold around a subtree and inside it, they hold of the whole tree |
| `RbShape.Inserted` | libs/libuv/tree.h:448 | with the root painted black, no violation is left |
| `RbShape.InsertRecolor` | libs/libuv/tree.h:415-421 | recolouring with a red uncle moves the violation up by two levels |
| `RbShape.Removed` | libs/libuv/tree.h:526-527 | painting the repaired child black, or having reached the root, ends the repair |
| `RbShape.RemoveRecolor` | libs/libuv/tree.h:465-471 | a black sibling with black nephews turns red, and the missing black node moves up |
| `Splay.Head.RotateRight` | libs/libuv/tree.h:88-92 | the rotation keeps the elements of the three parts and their order |
| `Splay.Head.RotateLeft` | libs/libuv/tree.h:94-98 | the mirror image |
| `Splay.Head.LinkLeft` | libs/libuv/tree.h:100-104 | the root and its right subtree go to the right part, whose free link is the only one set; the order is kept |
| `Splay.Head.LinkRight` | libs/libuv/tree.h:106-110 | the mirror image |
| `Splay.Head.Assemble` | libs/libuv/tree.h:112-117 | the three parts become one tree with the same elements in order, and the root parts them at the key |
| `Splay.Head.Splay` | libs/libuv/tree.h:209-242 | the in-order sequence, the other memory and the set of nodes are unchanged; everything left of the new root is below the key and everything right of it above |
| `Splay.Head.Find` | libs/libuv/tree.h:128-137 | returns the stored element with the key, or NULL exactly if there is none |
| `Splay.Head.Next` | libs/libuv/tree.h:139-151 | the in-order successor |
| `Splay.Head.Leftmost` | libs/libuv/tree.h:144-147 | the first element of a subtree |
| `Splay.Head.MinMax` | libs/libuv/tree.h:247-278 | the least or the greatest element comes to the root, the order is unchanged |
| `Splay.Head.Insert` | libs/libuv/tree.h:164-186 | adds the element when no equal key is stored, otherwise returns the stored one; entries outside of the tree are unchanged |
| `Splay.Head.Remove` | libs/libuv/tree.h:188-207 | removes the one element with the key and no other, and returns its argument, which is the removed element if and only if it was stored; otherwise returns NULL and keeps the sequence; entries outside of the tree are unchanged |
| `Splay.Head.RemoveRoot` | libs/libuv/tree.h:196-203 | the element at the root goes and the rest keeps its order |
| `Splay.RemoveAnother` | libs/libuv/tree.h:188-207 | an input for which the element returned is not the one removed |
| `Splay.SameKey` | libs/libuv/tree.h:190-205 | the stored element with the key of the argument is the argument if and only if that is stored |
| `Splay.MaxRoot` | libs/libuv/tree.h:199-202 | after the second splay the root has no right child, so that setting its right link loses nothing |
| `Splay.Parted` | libs/libuv/tree.h:209-242 | the key is at the root after a splay if and only if it is in the tree |
| `Splay.Nearest` | libs/libuv/tree.h:209-242 | no element lies between the key and the root after a splay |
| `Heap.MinHeap.constructor` | libs/libuv/heap-inl.h:62-65 | the empty heap is valid |
| `Heap.MinHeap.Minimum` | libs/libuv/heap-inl.h:67-70 | heap->min is NULL exactly for the empty heap, and otherwise a least element |
| `Heap.MinHeap.Swap` | libs/libuv/heap-inl.h:72-104 | swapping parent and child by eight link updates exchanges two slots of the complete tree and nothing else |
| `Heap.Path` | libs/libuv/heap-inl.h:122-124 | the loop collects the turns of the path from the root to node n out of the binary digits of n |
| `Heap.MinHeap.Walk` | libs/libuv/heap-inl.h:127-136 | following that path arrives at slot n and at the slot of its parent |
| `Heap.MinHeap.Insert` | libs/libuv/heap-inl.h:106-148 | adds exactly the new node, keeps a complete tree with right parent links and every parent not greater than its children, and leaves entries outside of the heap alone |
| `Heap.MinHeap.UnlinkLast` | libs/libuv/heap-inl.h:163-193 | takes the node in the last slot out of the tree; heap->min is cleared before it is compared with the child, so that the comparison never holds |
| `Heap.MinHeap.Substitute` | libs/libuv/heap-inl.h:195-236 | the last node takes the place of the removed one and the order is restored downwards or upwards |
| `Heap.MinHeap.SiftDown` | libs/libuv/heap-inl.h:220-229 | swaps with the smaller child until no child is smaller |
| `Heap.MinHeap.SiftUp` | libs/libuv/heap-inl.h:235-236 | swaps with the parent until it is not greater |
| `Heap.MinHeap.Remove` | libs/libuv/heap-inl.h:150-237 | removes exactly the given node, keeps a complete, ordered heap, and leaves entries outside of the heap alone |
| `Heap.MinHeap.Dequeue` | libs/libuv/heap-inl.h:239-241 | removes the minimum |
| `Heap.MinFirst` | libs/libuv/heap-inl.h:33-35 | in an ordered heap no element is less than the one at the root |
| `Rings.InitRing` | libs/libuv/queue.h:45-50 | an initialised queue is empty, and no other link changes |
| `Rings.EmptyRing` | libs/libuv/queue.h:39-43 | QUEUE_EMPTY tells the empty sequence, and QUEUE_HEAD the first element |
| `Rings.InsertTailRing` | libs/libuv/queue.h:92-99 | the sequence gets the node at its end; other links stay |
| `Rings.InsertHeadRing` | libs/libuv/queue.h:83-90 | the sequence gets the node at its front; other links stay |
| `Rings.RemoveRing` | libs/libuv/queue.h:101-106 | the sequence loses the node |
| `Rings.SplitRing` | libs/libuv/queue.h:61-70 | the sequence is cut in two at the node |
| `Rings.MoveRing` | libs/libuv/queue.h:72-81 | the whole sequence goes to the new head, which is right for the empty queue too |
| `Rings.AddRing` | libs/libuv/queue.h:52-59 | the two sequences are joined |
| `Rings.AllWithout` | libs/libuv/queue.h:101-106 | among several queues, QUEUE_REMOVE takes a node out of the one it is in without knowing which |
| `Rings.AllInsertTail` | libs/libuv/queue.h:92-99 | among several queues, only the given one changes |
| `Rings.AllMove` | libs/libuv/queue.h:72-81 | among several queues, only the two heads are involved |
| `Rings.QueueInsertTail` | libs/libuv/queue.h:92-99 | the assignments to the objects have the effect of the function on links that the lemmas are about |
| `Rings.QueueInsertHead` | libs/libuv/queue.h:83-90 | the same for QUEUE_INSERT_HEAD |
| `Rings.QueueRemove` | libs/libuv/queue.h:101-106 | the same for QUEUE_REMOVE |
| `Rings.QueueSplit` | libs/libuv/queue.h:61-70 | the same for QUEUE_SPLIT |
| `Rings.QueueMove` | libs/libuv/queue.h:72-81 | the same for QUEUE_MOVE |
| `Rings.QueueAdd` | libs/libuv/queue.h:52-59 | the same for QUEUE_ADD |
| `ThreadPool.StepKeeps` | libs/libuv/threadpool.c:65-294 | every step of every thread follows valid pointers and keeps the invariant that ties links and fields to the phase of each request |
| `ThreadPool.SubmitKeeps` | libs/libuv/threadpool.c:236-245 | a submitted request waits in the queue of the pool |
| `ThreadPool.EnterKeeps` | libs/libuv/threadpool.c:73-95 | a worker sleeps, leaves or takes the head of the queue |
| `ThreadPool.FinishKeeps` | libs/libuv/threadpool.c:120-125 | a request whose work ran is handed to its loop |
| `ThreadPool.CancelDecision` | libs/libuv/threadpool.c:251-256 | the test of link state and work pointer holds exactly for a request that waits in the queue, or is cancelled already and not yet answered |
| `ThreadPool.CancelKeeps` | libs/libuv/threadpool.c:254-262 | a cancelled request leaves the list that it is in |
| `ThreadPool.AnswerKeeps` | libs/libuv/threadpool.c:264-270 | a cancelled request is handed to its loop with uv__cancelled as its work |
| `ThreadPool.DrainKeeps` | libs/libuv/threadpool.c:282-284 | the list of the loop moves to the local list |
| `ThreadPool.DoneKeeps` | libs/libuv/threadpool.c:286-293 | the done call has the status that the history of the request demands |
| `ThreadPool.RunInv` | libs/libuv/threadpool.c:65-294 | the invariant holds in every state of every run |
| `ThreadPool.AnsweredOnce` | libs/libuv/threadpool.c:236-294 | in every run done is called at most once for a submission; status 0 means that the work ran once, UV_ECANCELED that it never ran |
| `ThreadPool.DrainedAnswered` | libs/libuv/threadpool.c:274-294 | when a run has drained pool and loops, every submitted request has been answered exactly once |
| `ThreadPool.PromiseKept` | libs/libuv/threadpool.c:248-294 | from the state where a cancel has returned 0 to any later state of the run, as long as the request is not submitted again: its work has not run, its answer, if given, is UV_ECANCELED, and it is given once pool and loops have drained |
| `PoolSteps.RunDoes` | libs/libuv/threadpool.c:65-294 | in every run each step does, in terms of sequences of requests, what the source means it to: the queue is served from its front, a list gets a finished request at its end, uv__work_done answers its list in order, and so on; nothing else changes |
| `PoolSteps.CancelDoes` | libs/libuv/threadpool.c:248-262 | the test of uv__work_cancel takes the request out of the list that it is in if and only if it waits in the queue or is cancelled already and not yet answered; otherwise nothing changes |
| `PoolSteps.CancelSucceeds` | libs/libuv/threadpool.c:248-271 | in every run such a cancel returns 0: the request is in no list at once, and the next two steps of that loop end with the promise |
| `PoolSteps.CancelledRun` | libs/libuv/threadpool.c:236-294 | from every initial state, a run of submission and cancel whose answer is UV_ECANCELED, with the work never run |
| `PoolSteps.CompletedRun` | libs/libuv/threadpool.c:73-294 | from every initial state, a run of submission and work whose answer has status 0, with the work run once |
| `PoolAnswers.QuietAnswered` | libs/libuv/threadpool.c:120-294 | in every run of the pool and of async.c together, when the queue of the pool is empty, no worker has a request, no loop cancels, and every loop is in poll with nothing to read and no thread inside uv_async_send, each submitted request has been answered once and with the right status |
| `PoolAnswers.NoLostAnswer` | libs/libuv/threadpool.c:120-284 | in every such run, while the list of a loop holds finished requests, a thread is inside its uv_async_send, the wakeup of wq_async is on its way, or its callback is running |
| `PoolAnswers.StepKeeps` | libs/libuv/threadpool.c:65-294 | every step of pool and loops together keeps both invariants and the tie between the lists and the flags of wq_async |
| `PoolAnswers.ListGrows` | libs/libuv/threadpool.c:120-125 | a list of finished requests gets longer only when a request is handed to its loop, and uv__work_done empties it |
| `PoolAnswers.WorkHandle` | libs/libuv/unix/async.c:112-118 | wq_async stays open, its flag falls only when its callback is called, and only its return leaves the callback |
| `PoolAnswers.Sender` | libs/libuv/unix/async.c:59-68 | a call of uv_async_send on wq_async ends with the flag set, and no other step moves the sender |
| `PoolAnswers.RunDoes` | libs/libuv/threadpool.c:65-294 | in every run of pool and loops together each step does what it means to its own part, to wq_mutex and to the callback that is due, and leaves the other part alone |
| `PoolAnswersRun.AnsweredRun` | libs/libuv/threadpool.c:236-294 | from every initial state, for every loop, request and worker: a run in which the request is submitted, run, announced through wq_async and answered with status 0, and the loop is back in poll |
| `PoolWakeups.StepAwake` | libs/libuv/threadpool.c:73-95 | every step keeps idle_threads equal to the number of workers inside uv_cond_wait, a way to be woken, and the order around the exit message |
| `PoolWakeups.NobodyStranded` | libs/libuv/threadpool.c:73-153 | in every run a non-empty queue never leaves all live workers asleep unsignalled, and when no worker is on its way after the exit message, all have exited |
| `PoolWakeups.NothingLeftBehind` | libs/libuv/threadpool.c:82-95 | in every run, once a worker has exited no request posted before the exit message is still queued |
| `PoolWakeups.ExitProgress` | libs/libuv/threadpool.c:82-95 | in every run, from the state where the exit message heads the queue it stays there, each worker takes at most three more steps whatever the other threads do, and a worker that has taken all of its steps has exited |
| `Async.StepKeeps` | libs/libuv/unix/async.c:41-154 | every step of senders and loop follows valid pointers and keeps the invariant on flags, tokens and lists |
| `Async.SendCasKeeps` | libs/libuv/unix/async.c:59-68 | a successful compare-and-swap counts as a send and leaves a token to be written |
| `Async.SendWriteKeeps` | libs/libuv/unix/async.c:123-154 | after the write there is a token, also when the descriptor was full |
| `Async.TakeKeeps` | libs/libuv/unix/async.c:105-110 | the head of the local queue goes back to the tail of the list of handles, before its flag is cleared |
| `Async.ClearKeeps` | libs/libuv/unix/async.c:112-118 | the flag is cleared at most as often as set, and each clear of a handle with a callback calls it |
| `Async.RunInv` | libs/libuv/unix/async.c:41-154 | the invariant holds in every state of every run |
| `Async.NoLostWakeup` | libs/libuv/unix/async.c:59-154 | in every interleaving, while a send to an open handle is not answered there is a token, a sender between its compare-and-swap and its write, or the handle waits in the current drain; clears never outnumber sends |
| `Async.AllAnswered` | libs/libuv/unix/async.c:59-120 | with the loop back in poll, nothing to read and no sender inside its call, every send to an open handle has been answered |
| `Async.DrainAnswers` | libs/libuv/unix/async.c:104-119 | at the end of a drain every send that took effect before its QUEUE_MOVE is answered, if the handle stayed open |
| `Async.DrainShrinks` | libs/libuv/unix/async.c:105-119 | callbacks that send, open or close handles cannot prolong a drain |
| `AsyncSteps.RunDoes` | libs/libuv/unix/async.c:41-154 | in every run each step does, in terms of sequences of handles and of the counters, what the source means it to, and nothing else changes |
| `AsyncSteps.AnsweredRun` | libs/libuv/unix/async.c:41-120 | from every initial state, a run in which a handle is opened, sent to and called back once |
| `Inet4.Ntop4` | libs/libuv/inet.c:53-65 | the text of the address, or UV_ENOSPC exactly if it does not fit with its terminator; the text always fits the local buffer |
| `Inet4.Pton4` | libs/libuv/inet.c:186-222 | the loop computes the parsing function |
| `Inet4.ParsePrint4` | libs/libuv/inet.c:53-65 | parsing what was printed gives the address back |
| `Inet4.Parse4Exact` | libs/libuv/inet.c:186-222 | a text is accepted as an address if and only if it is the text printed for that address |
| `Inet4.Parse4Decimal` | libs/libuv/inet.c:186-222 | a text is accepted if and only if it is four decimal numbers from 0 to 255 without leading zeros, with dots between them, and these are the bytes |
| `Inet4.DigitValExact` | libs/libuv/inet.c:187-198 | a digit has the value of its place in the string of digits |
| `Inet4.Print4Length` | libs/libuv/inet.c:53-65 | 7 to 15 characters |
| `Inet6.ParsePrint` | libs/libuv/inet.c:225-309 | whatever run of zero words is left out of the text, parsing gives the address back |
| `Inet6.ParsePrint6` | libs/libuv/inet.c:68-309 | for every address, inet_pton6 of the text of inet_ntop6 succeeds and gives the same 16 bytes |
| `Inet6.BestIsFirstLongest` | libs/libuv/inet.c:89-112 | the scan finds the first of the longest runs of two or more zero words, or none if there is none |
| `Inet6.ShiftBack` | libs/libuv/inet.c:289-304 | putting zeros at the place of "::" gives back the bytes that were left out |
| `Inet6.RunQuad` | libs/libuv/inet.c:273-280 | a dotted quad at the end gives its four bytes, after its first digits were read as hexadecimal |
| `Inet6.RunGroup` | libs/libuv/inet.c:246-254 | up to four digits of either case are read as their hexadecimal value |
| `Inet6Text.PrintForm` | libs/libuv/inet.c:117-144 | the text is that of sections 4.1 to 4.3 of RFC 5952: words joined by colons with "::" for the chosen run, or "::" and a dotted quad with an optional ffff; the test for a run of seven words never takes effect |
| `Inet6Text.HexCanonical` | libs/libuv/inet.c:139 | a word is printed in lower case, without leading zeros, in one to four digits |
| `Inet6Text.DoubleColon` | libs/libuv/inet.c:118-144 | two colons meet only where a run is left out |
| `Inet6Text.Print6Length` | libs/libuv/inet.c:117-151 | never more than 39 characters, 40 bytes with the terminator |
| `Inet6Text.Words` | libs/libuv/inet.c:86-88 | the loop over the bytes gives the eight words |
| `Inet6Text.Longest` | libs/libuv/inet.c:89-112 | the loop over the words computes the scan function |
| `Inet6Text.Format` | libs/libuv/inet.c:117-144 | the formatting loop writes the text and never leaves its buffer; the inner inet_ntop4 never fails |
| `Inet6Text.Ntop6` | libs/libuv/inet.c:68-154 | the text of the address, or UV_ENOSPC exactly if it does not fit with its terminator |
| `Inet6Text.Shift` | libs/libuv/inet.c:294-303 | the shift by hand, whose regions may overlap, moves the bytes behind "::" to the end and leaves zeros between |
| `Inet6Text.Finish` | libs/libuv/inet.c:283-308 | the last word, the shift and the test for sixteen bytes |
| `Inet6Text.Pton6` | libs/libuv/inet.c:225-309 | the loop computes the parsing function |
| `Inet6Grammar.Parse6Exact` | libs/libuv/inet.c:225-309 | a text is accepted with given bytes if and only if it is spelled by the grammar of section 2.2 of RFC 4291 (groups of one to four digits, at most one "::" for one or more zero groups, an optional dotted quad at the end) with that meaning |
| `Inet6Grammar.Found` | libs/libuv/inet.c:236-308 | every accepted text is in the grammar |
| `Inet6Grammar.Read` | libs/libuv/inet.c:236-308 | every text of the grammar is accepted with its meaning |
| `Inet6Grammar.Accepted` | libs/libuv/inet.c:243-281 | from any point between two groups, what the loop accepts is the rest of a text of the grammar |
| `Inet6Grammar.GroupBytes` | libs/libuv/inet.c:267-268 | a group gives two bytes, the more significant one first |
| `Inet6Grammar.KnownAddresses` | libs/libuv/inet.c:225-309 | two addresses and their sixteen bytes |
| `Basics.HexValExact` | libs/libuv/inet.c:226-252 | a hexadecimal digit has the value of its place in one of the two strings of digits |
| `Inet6Text.PtonZone` | libs/libuv/inet.c:164-179 | a zone behind a percent sign is cut off; more than 45 characters in front of it are an error |
| `Inet6Grammar.ParseZoneExact` | libs/libuv/inet.c:164-179 | uv_inet_pton accepts a text with given bytes if and only if it is a text of that grammar with that meaning, alone or followed by a percent sign and any zone |
| `Inet6Grammar.SpellLength` | libs/libuv/inet.c:171 | no text of the grammar has more than 45 characters, so that the limit on the length refuses none |
| `Inet6Text.ZoneRoundTrip` | libs/libuv/inet.c:157-183 | every printed address reads back through uv_inet_pton, alone and with any zone |
| `IntelHex.WriteRecord` | libs/avrdude/fileio.c:76-84 | the loop writes one record as the text function says; RecordBytes says what that spells |
| `IntelHex.B2ihex` | libs/avrdude/fileio.c:47-121 | writes the records of the text function from a start address inside the first 64K and returns the number of bytes; more than 255 bytes in a record are refused with nothing written |
| `IntelHex.Strtoul2` | libs/avrdude/fileio.c:140-145 | strtoul with base 16 reads two written digits back |
| `IntelHex.IhexRec.ReadBytes` | libs/avrdude/fileio.c:169-180 | the data bytes and the running checksum |
| `IntelHex.IhexRec.ReadRecord` | libs/avrdude/fileio.c:124-195 | the loop computes the record function, an error exactly where that fails |
| `IntelHex.ReadRecord` | libs/avrdude/fileio.c:124-195 | every written record is read back with all its fields and with the checksum it carries |
| `IntelHex.ReadCut` | libs/avrdude/fileio.c:170-190 | a record that is cut off anywhere behind its header is refused |
| `IntelHex.ReadWhole` | libs/avrdude/fileio.c:230-236 | a line of up to 255 characters is read as a whole, also when its newline comes with the next fgets |
| `IntelHex.Switch` | libs/avrdude/fileio.c:248-287 | the effect of one record on the buffer and the addresses, for every record, a write outside of the buffer included |
| `IntelHex.Ihex2b` | libs/avrdude/fileio.c:211-294 | the loop computes the file function for every file: the value returned and the buffer, or the verdict that a write leaves the buffer |
| `IntelHex.ReadText` | libs/avrdude/fileio.c:230-289 | from any point of a written file, the rest of the bytes arrives behind those already read, across all 64K boundaries |
| `IntelHex.RoundTripAt` | libs/avrdude/fileio.c:47-294 | reading a file that was written from any start address below 64K puts the bytes at that offset and returns their end, if and only if the longest record has at most 122 bytes and the buffer is large enough; otherwise the result is -1 |
| `IntelHex.RoundTrip` | libs/avrdude/fileio.c:47-294 | from address 0, reading a written file gives back the bytes and their number if and only if the longest record has at most 122 bytes and the buffer is large enough; otherwise the result is -1 |
| `IntelHex.LongRecordRefused` | libs/avrdude/fileio.c:53-56 | 123 bytes in one record are written and then refused |
| `IntelHex.ApplyWild` | libs/avrdude/fileio.c:249-257 | a data record writes outside of the buffer if and only if it passes the range test while its end wraps around 32 bits, or while it lies below offsetaddr |
| `IntelHex.WildExactly` | libs/avrdude/fileio.c:204-289 | reading a file writes outside of the buffer if and only if it gets to such a record |
| `IntelHex.PlainSafe` | libs/avrdude/fileio.c:204-289 | a file without extended address records and without signs in its offsets never writes outside of any buffer |
| `IntelHex.WrapEscapes` | libs/avrdude/fileio.c:250-257 | a file whose last record wraps around and passes the test |
| `IntelHex.BelowEscapes` | libs/avrdude/fileio.c:250-277 | a file that moves offsetaddr above the address of its data record |
| `IntelHexFormat.RecordBytes` | libs/avrdude/fileio.c:73-84 | a record spells its length, address, type and data, and one byte that makes the sum of all of them 0 in eight bits |
| `IntelHexFormat.KnownRecords` | libs/avrdude/fileio.c:108-115 | three records as they are known, the end record ":00000001FF" among them |
| `IntelHexFormat.ChecksumExact` | libs/avrdude/fileio.c:182-190 | for every line that is read, the computed checksum is the one in the line if and only if length, address, type, data and checksum sum to 0 in eight bits |
| `IntelHexFormat.ReadHexLine` | libs/avrdude/fileio.c:124-195 | a line of digits of either case is read as the bytes that it spells, and accepted if and only if they sum to 0 |
| `IntelHexFormat.BadLineRefused` | libs/avrdude/fileio.c:237-246 | a line with a wrong sum, an unknown type or too few bytes ends the reading with -1 |
| `IntelHexFormat.OtherLineSkipped` | libs/avrdude/fileio.c:235-236 | a line that does not begin with a colon is skipped |
| `IntelHexFormat.DataRefused` | libs/avrdude/fileio.c:251-254 | a data record that ends behind the buffer ends the reading with -1 and writes nothing |
| `IntelHexFormat.ReadRecordsFrom` | libs/avrdude/fileio.c:211-294 | reading any file of data, segment, linear and start address records whose bytes fall into the buffer leaves there exactly what the records say, later bytes over earlier ones, and returns the end of the highest record |
| `IntelHexFormat.StrtoulForm` | libs/avrdude/fileio.c:140-145 | strtoul with base 16 reads white space, sign, prefix and digits as their number and counts all of them |
| `IntelHexFormat.TakeExact` | libs/avrdude/fileio.c:66-71 | a data record is as long as the record size, the bytes left and the segment allow |
| `FsPoll.StatEqExact` | libs/libuv/fs-poll.c:227-242 | two results are equal exactly if they agree in everything but link count, device type, block sizes and access time |
| `FsPoll.Delay` | libs/libuv/fs-poll.c:213-217 | the timer expires at the first point after now on the grid of the interval |
| `FsPoll.StepKeeps` | libs/libuv/fs-poll.c:56-224 | every step, a refused first stat included, uses allocated memory only, closes a timer once, satisfies the assertions and keeps the invariant |
| `FsPoll.CallsOnNews` | libs/libuv/fs-poll.c:185-203 | busy_polling and statbuf tell exactly whether an observation is news |
| `FsPoll.RunInv` | libs/libuv/fs-poll.c:56-224 | the invariant holds in every state of every run |
| `FsPoll.OnePhase` | libs/libuv/fs-poll.c:104-219 | in every run, between callbacks a context is in exactly one phase: request in flight, timer armed, or timer closing after a stop |
| `FsPoll.ReportsNews` | libs/libuv/fs-poll.c:185-203 | in every run the calls made are the first observation if it is an error and each later one that differs from its predecessor, each with the handle, the error or 0, the last good result before it as the previous one, and the new result as the current one |
| `FsPoll.ExpectedExact` | libs/libuv/fs-poll.c:185-203 | each call is the one for an observation that is news, and each such observation has its call |
| `FsPoll.LastGoodExact` | libs/libuv/fs-poll.c:196-203 | the previous result is that of the last observation without an error, or all zero if there is none |
| `FsPoll.ChangeReported` | libs/libuv/fs-poll.c:196-203 | a run with two different results, in which the user is called with the first as the previous and the second as the current one |
| `FsPoll.StepView` | libs/libuv/fs-poll.c:56-224 | in every run each step does what it means to the polling handles, to the contexts in each phase, and to what they have seen and called |
| `FsPoll.CallsWhileActive` | libs/libuv/fs-poll.c:179-203 | in every run a callback is called only for an active handle that polls with this context, never after a stop |
| `FsPoll.LinkedTimers` | libs/libuv/fs-poll.c:82-100 | in every run the handle queue of the loop holds one timer for each allocated context, and one more at the address of each context that a refused start has freed |
| `FsPoll.DanglesExactly` | libs/libuv/fs-poll.c:89-100 | in every run that queue leads into freed memory if and only if an earlier uv_fs_poll_start has returned an error of uv_fs_stat |
| `FsPoll.RefusedDangles` | libs/libuv/fs-poll.c:89-100 | one refused start is enough |
| `Bits.NextPowerOfTwo` | libs/libuv/unix/core.c:777-786 | the least power of two not below the value, or 0 if that does not fit into 32 bits |
| `Watchers.CapacityFits` | libs/libuv/unix/core.c:788-807 | the capacity fits into 32 bits exactly if the descriptor is not INT_MAX - 1 |
| `Watchers.Loop.MaybeResize` | libs/libuv/unix/core.c:788-820 | keeps all slots and the two values behind them, and the new capacity with these two is the least power of two that is large enough; it wraps around exactly for a length of INT_MAX |
| `Watchers.Loop.InitWatcher` | libs/libuv/unix/core.c:823-831 | a new watcher is idle and in no queue |
| `Watchers.Loop.Start` | libs/libuv/unix/core.c:840-865 | the watcher has its slot, nfds counts the slots in use, all other slots and the two values behind them stay, and the watcher is appended to the queue exactly if its masks differ and it is not queued yet; all of this exactly if the descriptor is not INT_MAX - 1 |
| `Watchers.LastDescriptor` | libs/libuv/unix/core.c:840-847 | the descriptor INT_MAX - 1 on a new loop, which the assertions admit |
| `Watchers.Loop.Register` | libs/libuv/unix/core.c:849-864 | the part of uv__io_start behind maybe_resize, for a descriptor inside the table |
| `Watchers.Loop.Stop` | libs/libuv/unix/core.c:868-897 | without events left the slot is cleared and the watcher leaves the queue, otherwise it is queued; nothing else changes, and nothing at all for a descriptor beyond the table |
| `Watchers.Loop.Arm` | libs/libuv/unix/linux-core.c:217-255 | the assertions hold, and afterwards the queue is empty and every watcher is armed for what it waits for |
| `Handles.StepKeeps` | libs/libuv/uv-common.h:166-219 | every step keeps active_handles equal to the number of queued handles that are active and referenced, and the two lists of closing handles |
| `Handles.MacroKeeps` | libs/libuv/uv-common.h:166-201 | a change of flags that changes the count with the set keeps the invariant |
| `Handles.MacroBooks` | libs/libuv/uv-common.h:166-201 | start makes a handle active and stop inactive, ref makes it referenced and unref not, and none of them changes anything else |
| `Handles.StepBooks` | libs/libuv/unix/core.c:110-297 | in every run each step does what it means to the sets of open, active, referenced, closing and closed handles and to the two lists, and active_handles is the number of open handles that are active and referenced |
| `Handles.StartedAlive` | libs/libuv/uv-common.h:166-219 | from every initial state, a handle that is initialised and started keeps the loop alive, and no longer when it is unreferenced |
| `Handles.ClosedRun` | libs/libuv/unix/core.c:110-297 | from every initial state, a run in which a handle is closed, finished and called back once |
| `Handles.CloseKeeps` | libs/libuv/unix/core.c:110-180 | a closed handle heads the list of closing handles |
| `Handles.FinishKeeps` | libs/libuv/unix/core.c:237-274 | finishing takes the handle out of the list and marks it as closed, before user code may run inside of it |
| `Handles.FinishRestKeeps` | libs/libuv/unix/core.c:276-282 | then the handle leaves queue and count, and its close callback is called |
| `Handles.RunInv` | libs/libuv/unix/core.c:110-297 | the invariant holds in every state of every run |
| `Handles.CountsLive` | libs/libuv/uv-common.h:148-160 | in every run active_handles is the number of queued handles that are active and referenced |
| `Handles.ClosedOnce` | libs/libuv/unix/core.c:237-297 | in every run a close callback is called once its handle is finished and never again; until uv__finish_close begins the handle waits in one of the lists, and exactly during it a handle is closed and still in the queue |
| `Handles.PassShrinks` | libs/libuv/unix/core.c:285-297 | a pass only gets shorter: handles closed by close callbacks wait for the next pass |
| `Handles.PassFinishes` | libs/libuv/unix/core.c:285-297 | in every run a pass finishes exactly the handles that were listed when it began, in their order |
| `Handles.AliveExactly` | libs/libuv/unix/core.c:330-334 | between two passes the loop is alive because of handles exactly if one is live or waits to be closed |
| `Daemon.StepKeeps` | daemon.c:268-964 | every step, also of calls made from inside other calls, follows valid pointers only, releases locks it owns and keeps the invariant of queues, locks and wakeups |
| `Daemon.Appended` | daemon.c:295-303 | a node is linked behind the last one, whose next link was garbage until then |
| `Daemon.Popped` | daemon.c:503-508 | the first node leaves the queue; its next link is used only if the number says so |
| `Daemon.RunInv` | daemon.c:268-964 | the invariant holds in every state of every run |
| `Daemon.Fifo` | daemon.c:517-679 | in every run each queue processes the accepted values once and in order, also those its consumer enqueues itself, and holds at most 1025 |
| `Daemon.DropsWhenFull` | daemon.c:272-306 | in every run a value is dropped exactly if the queue holds 1025 |
| `Daemon.NoLeak` | daemon.c:503-508 | in every run the allocated nodes are exactly those in the queues: a processed node is freed and a dropped value leaves none |
| `Daemon.NoSleepOnWork` | daemon.c:622-679 | in every run, values in a queue whose consumer sleeps have a signal on its way |
| `Daemon.LockOrder` | daemon.c:700-964 | a thread that holds locks, in nested calls too, waits for later ones only, in the order send, receive, broadcast |
| `Daemon.NoDeadlock` | daemon.c:268-964 | in every run no threads wait for one another in a circle |
| `Daemon.ReleaseKeeps` | daemon.c:835-963 | send_queue gives its lock back without an insertion |
| `Daemon.NestedCall` | libs/pilight/protocols/API/program.c:291-292 | from every initial state a producer gets to hold the send lock and wait for the broadcast lock |
| `Daemon.CallAgainstOrder` | daemon.c:268-964 | the order of calls is needed: for any two queues, one call from inside the later one to the earlier one can close a circle |
| `DaemonSteps.RunDoes` | daemon.c:268-964 | in every run each step does what it means to the values that wait in each queue, to the locks, the calls and the consumers: an accepted value goes to the end, the first one is processed, and the 1025 that fit are the limit |
| `DaemonSteps.ProcessedRun` | daemon.c:268-679 | from every initial state, for every queue and value: a run in which a producer enqueues it and the consumer processes it |
| `SortList.NameList.Pass` | send.c:50-74 | one pass keeps nodes and stability, and moves the boundary e one node to the front of a sorted suffix of greatest elements |
| `SortList.NameList.Sort` | send.c:42-76 | ends for every list, with the same nodes in the order of their names and nodes with equal names in their old order |
| `SortList.SwapLinks` | send.c:54-67 | the assignments exchange two neighbours of the list and nothing else |
| `SortList.SortedStable` | send.c:42-76 | the result is in the order of a dictionary by name and, for equal names, by the old place, which determines it |
| `SortList.StrcmpExact` | send.c:53 | strcmp is negative if and only if the first text comes first in a dictionary, by the first place where they differ, and zero if and only if they are equal |
| `SortList.StrcmpOrder` | send.c:53 | strcmp is transitive |

## Left out

- RB_FIND, RB_PREV and RB_MINMAX: the mirror images or simpler forms of RB_NFIND and RB_NEXT.
- Cost of the splay tree: the amortised bounds of its documentation.
- Comparison functions that are not total preorders, and keys that change while an element is stored.
- Threads of the pool: starting them, their number and fork handling; the mutexes and the condition variable are atomic primitives, and fairness is not modelled.
- File descriptors: pipe, eventfd and epoll are counters and events in the steps; interrupted system calls are retried and invisible.
- Intel HEX: files that contain NUL characters, and what happens after a write outside of the buffer.
- IntelHex.B2ihex: record sizes below 1, for which the writer does not end or counts backwards, and start addresses from 64K on, for which its arithmetic on the first record wraps around. The only call of this static function passes 32 and 0.
- Heap.MinHeap.Insert: requires that the count of the new heap fits its unsigned field, that is, fewer than 4294967295 elements before the call; the source does not check this.
- Watchers.Loop.Start: what the source does once the capacity has wrapped around; the model stops there with a flag and an unchanged state.
- FsPoll: what the loop does with a timer entry in freed memory; `linked` counts the entries by their address. Failures of later stat requests, which abort.
- Handles: signal handles, whose closing is delayed by their own code; the queue of handles is modelled by a flag in each handle.
- Daemon: what the consumers do with a value, start-up and shutdown. Protocol drivers are taken to enqueue, from a consumer or from inside send_queue, to the same queue or a later one only; `Daemon.CallAgainstOrder` shows what happens otherwise.
- SortList: the printing and freeing of the list after the sort.
- The rest of the repository: protocol drivers, JSON, Lua, configuration, web server, sockets, and the device code of avrdude, which is mostly input and output.
