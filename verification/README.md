# fast_net in Dafny

fast_net measures how fast one process can feed another over TCP. It holds three pairs of programs, and this
project models all three and proves what their correctness rests on.

**The pipelined page service** (`simple_iou_client`, `simple_iou_server`, `buffer_pool`). A client thread keeps
requests and page receives in flight under two windows; the server answers each request with a page filled with the
requested number. Both work through io_uring rings and take every operation record from a pooled allocator. Much of
what keeps it working is checked nowhere: submission entries are not null-checked, the server puts no limit on its
pending writes, read records are reposted in place, and every block must go back to the pool under the size it was
taken with.

**The one-way flood** (`max_client`, `max_server`). Many senders and one shared byte counter, over streams that may
be split anywhere; failed sends are never counted as completed.

**The lock-step page service** (`client`, `server`, `memory_block`, `models/get_page`). One request, one 140-byte
reply, reassembled from short reads and verified against a filling strategy.

Below, R is `RING_SIZE`, q = R / 4, h = R / 2 (integer division), and n is the number of requests of one thread.

## How it is built

- `Protocol` is one client thread, its server handler and the socket between them as a state machine: every turn of
  either thread and every operation the kernel executes is a step. Its invariant is inductive; `PipelineSafety`,
  `PipelineOrder`, `PipelineLiveness`, `PipelineExit` and `PipelineOvertaking` draw the consequences over all runs.
- `Buffers` is the same system with its memory: operations are addresses from a pool, completions carry an address
  only, and what a completion means is read back from the record. `BufferSafety` proves that no run touches memory
  its operation does not hold, that every move is one step of `Protocol`, and that every run of `Protocol` is matched
  by moves: the same states can be reached, so what is proved there, that something can happen included, carries over.
- `IouClients` and `IouServers` are the two programs' loops as methods on classes, from the construction of their
  pools on. Each turn is tied to one move of the buffer-level machine, and between turns, before and after the submit
  and between the inner loops, an arbitrary schedule lets the kernel and the other side act.
- `BufferPools` has the allocator as a specification on values, what that refines, and the class itself.
- `Flood` is the flood as a state machine over all connections, `FloodLiveness` says which senders finish,
  `FloodTotals` when the shared counter gets to the expected total, and `FloodThreads` has both programs' loops, tied to the machine turn by turn in the same way.
- `Wire` and `MemoryBlocks` are the lock-step pair's messages and memory. `PageService` has the server's loop and what
  it sends as one stream; `PageClients` has the client's loop over that stream, whatever its reads bring, and
  `PageAlignment` settles when a response is the reply to its own request.
- `Ranges` has the division of requests over threads and the totals over all threads.

## What the environment is taken to do

- A submission queue has at least R entries and a submit empties it. A completion queue is first-in first-out; that
  its 2 R slots (the default of io_uring_setup) suffice is proved, not assumed.
- In the pipelined pair, executing an operation moves one whole item, a 4-byte request or a full page, and posts its
  completion in the same step. Operations in flight execute in any order; only `PipelineOrder` takes submission order.
  Each direction of the socket holds a bounded number of items, at least one. Operations do not fail, and no read
  comes back empty before the client leaves.
- In the flood, sends may fail or be short and reads may split the stream anywhere.
- In the lock-step pair, reads of a reply may be short, fail or find the connection closed, and a send may fail. A
  request may reach the server in part; the server's loop then ends, as it expects each one whole in a single read.
- malloc returns any address not in use, with arbitrary contents.

## What is not as one might expect

- The pipelined client's loop ends as soon as every receive is posted; it does not wait for the pages. How many can be
  missing is settled exactly: any number up to h, and no more (`PipelineExit.ShortfallIsExactly`). Only with
  nothing to request, or with a ring so small that it never leaves, is it sure to have them all
  (`PipelineExit.ExitIsCompleteIff`).
- With R < 4 the send window is empty: no request is ever sent and the loop never ends (`PipelineLiveness`).
- The server's writes stay below the client's two windows together, so its operations never exceed R, although it
  does not count them.
- The total `main` announces starts from an unsigned int. With both settings below 2^31, ints as decimal literals, it
  is right exactly when NUM_REQUESTS * PAGE_SIZE is below 2^32; the default number of requests with pages of 4096
  numbers is announced as 0. A literal from 2^31 on is a long and widens the product to 64 bits
  (`Ranges.ExpectedTotalIsExactIff`, `Ranges.WidthMatters`).
- One failed send and a flood client never leaves its loop; without one, and with a window, it does
  (`FloodLiveness.FairSenderLeavesIff`).
- The lock-step client never looks at the request id of a reply. Once a reply has been read short its reads stay
  behind for good, and from then on no response is the reply to its own request (`PageAlignment.OwnReplyIff`), yet an
  earlier request's reply can count as correct (`PageClients.StaleReplyCounts`).
- Pages can arrive out of request order with two requests or more, even with a window of a single send
  (`PipelineOvertaking.InOrderIff`).
- A thread of the pipelined client that leaves short leaks the blocks of what it left behind: its pool frees only what
  was given back (`IouClients.IouClient.Leave`).
- A short send counts as completed in the flood, so the counter that `max_server` waits on gets to the expected total
  only if no send is short (`FloodTotals.FairTotalIff`).
- The pseudo-random filling strategy ignores both index and seed, so with it any served page verifies as any other
  (`MemoryBlocks.PseudoRandomConfusion`).
- A page number is stored into an int32, so ids are right up to 2^31 and distinct up to 2^32, and no further
  (`PipelineOrder.ReceivedInOrder`, `PipelineExit.ReceivedDistinctIff`).

## Model

| member | source | states |
|---|---|---|
| Protocol.StepKeepsInv | src/simple_iou_client.cpp:107-276 | Every step of the client thread, the server handler or the kernel keeps the whole invariant: counters, queue bounds, the sends-before-receives ballot, the server's read pool and write lag, and the tokens |
| Protocol.StepKeepsTokens | src/simple_iou_client.cpp:120-133 | No step loses, duplicates or invents an id: all stages together stay a permutation of the ids handed out |
| Protocol.StepPipeline | src/simple_iou_server.cpp:72-103 | A step changes the pipeline only by appending the id it hands out; executed first in first out, it keeps even the order |
| Protocol.ServerKeeps | src/simple_iou_server.cpp:62-118 | A handler turn keeps q reads and the bound on reads ahead of plus writes behind every write completion |
| Protocol.KernelWriteKeeps | src/simple_iou_server.cpp:35-47 | A finished write joins the completion queue within that bound, because the client's windows limit what the server holds |
| Protocol.KernelRecvKeeps | src/simple_iou_client.cpp:145-154 | A page's completion never gets ahead of its send's completion in the client's queue |
| Protocol.BreakMeansAll | src/simple_iou_client.cpp:270-276 | The break condition holds only when every page has been received |
| PipelineSafety.ReachableInv | src/simple_iou_client.cpp:107-276 | The invariant holds in every state any run reaches, and the ids in the eight stages add up to send_index |
| PipelineSafety.Windows | src/simple_iou_client.cpp:113-157 | iterations_received <= recv_index <= send_index <= n, the two windows q and h hold throughout, and total_received is whole pages |
| PipelineSafety.WindowsAreFilled | src/simple_iou_client.cpp:113-157 | When the client leaves a filling loop its window is used to the full: send_index is the least of n and recv_index + R / 4, recv_index the least of send_index and iterations_received + R / 2 |
| PipelineSafety.EntryLeft | src/simple_iou_client.cpp:128-151 | Whenever a filling loop goes on, fewer than R entries are queued, so the unchecked io_uring_get_sqe succeeds |
| PipelineSafety.ClientSubmissionFits | src/simple_iou_client.cpp:113-196 | Between two submits at most q sends and h receives are queued, within R |
| PipelineSafety.ClientCompletionsFit | src/simple_iou_client.cpp:198-268 | Completions not yet advanced over, indeed all outstanding operations, stay within q + 2 h <= 2 R: the queue cannot overflow |
| PipelineSafety.ServerSubmissionFits | src/simple_iou_server.cpp:55-60 | The prologue queues at most q entries, and wherever a completion exists there is room for the two an answer takes |
| PipelineSafety.SendsReapedFirst | src/simple_iou_client.cpp:203-266 | However far the client gets in reaping, it has reaped at least as many sends as pages |
| PipelineSafety.ServerStaysBounded | src/simple_iou_server.cpp:62-118 | Writes not yet reaped are at most q + h, all server operations at most 2 q + h <= R, and its completion queue, counting the one not yet marked seen, within 2 R |
| PipelineSafety.ReadPoolConstant | src/simple_iou_server.cpp:55-60 | From the prologue on, posted plus unanswered reads are exactly q |
| PipelineSafety.AnsweredOnce | src/simple_iou_server.cpp:72-103 | Only the handler's turn at a completed read adds a page to those written, under way or received; no other step adds or loses one |
| PipelineSafety.ExactlyOnce | src/simple_iou_client.cpp:113-157 | Under every interleaving and execution order each id of the thread's range is in exactly one place, from unsent to received |
| PipelineSafety.ReceivedWasRequested | src/simple_iou_client.cpp:203-266 | Every id received was handed out |
| PipelineSafety.ReceivedDistinct | src/simple_iou_client.cpp:203-266 | No id is received twice, as long as the thread has at most 2^32 requests |
| PipelineSafety.IdsDistinctIff | src/simple_iou_client.cpp:122 | The ids of a thread differ pairwise if and only if it has at most 2^32 requests; ids 2^32 apart are the same |
| PipelineSafety.ExitShortfall | src/simple_iou_client.cpp:107-110 | At exit all is sent and posted, between 0 and h pages are missing, and all bytes received means exactly the ids requested received |
| PipelineSafety.BreakIsComplete | src/simple_iou_client.cpp:270-276 | Where the break fires, every page requested has been received, each once |
| PipelineSafety.ExitCanBeShort | src/simple_iou_client.cpp:107-110 | A concrete run, R = 4 and one request, that exits with no page received |
| PipelineExit.Delivers | src/simple_iou_client.cpp:107-276 | Some run delivers any chosen number of pages before the client leaves |
| PipelineExit.LeavesWith | src/simple_iou_client.cpp:107-276 | Once at most h pages are missing, the client can leave on its own without another one |
| PipelineExit.ShortfallIsExactly | src/simple_iou_client.cpp:107-110 | With R >= 4 the client can leave with k pages missing if and only if k <= n and k <= h |
| PipelineExit.ExitIsCompleteIff | src/simple_iou_client.cpp:107-110 | Every exit is complete if and only if there is nothing to request or R < 4 |
| PipelineExit.ReceivedDistinctIff | src/simple_iou_client.cpp:203-266 | No run receives an id twice if and only if the thread has at most 2^32 requests: beyond that a complete run does |
| PipelineOrder.PipelineInOrder | src/simple_iou_client.cpp:122-131 | If each side's operations execute in submission order, the eight stages read front to back are the ids handed out, oldest first |
| PipelineOrder.ReceivedInOrder | src/simple_iou_client.cpp:203-266 | Then the pages received are those of the first requests in request order, and they carry start_index + k itself if and only if that stays within 2^31 |
| PipelineOrder.DecodedInOrder | src/simple_iou_server.cpp:79-80 | Then the k-th read the server completes decodes the k-th request |
| PipelineOvertaking.Overtakes | src/simple_iou_client.cpp:195 | With two requests or more and R >= 4, some run receives the second page first: both sends are in flight at once, whatever the window, and the kernel may execute the second first |
| PipelineOvertaking.InOrderIff | src/simple_iou_client.cpp:203-266 | In every run the pages received are those of the first requests in request order if and only if n <= 1 or R < 4 |
| PipelineOvertaking.OvertakingIsPossible | src/simple_iou_client.cpp:203-266 | A concrete setting, R = 8 and two requests, in which page 1 is received first |
| PipelineLiveness.StepWork | src/simple_iou_client.cpp:107-276 | Every step strictly decreases the work left, except the client thread going round its loop, which changes only its position |
| PipelineLiveness.UsefulWorkIsLinear | src/simple_iou_client.cpp:107-276 | However long a run, at most 16 n + q + 1 of its steps do useful work |
| PipelineLiveness.NoDeadlock | src/simple_iou_client.cpp:107-276 | With R >= 4, in every state before exit somebody else can move or the client acts within one round |
| PipelineLiveness.SmallRingNeverSends | src/simple_iou_client.cpp:113-114 | With R < 4 and n > 0 no run ever sends a request or leaves the loop |
| PipelineLiveness.FairRunsExit | src/simple_iou_client.cpp:107-276 | A fair run leaves the client's loop if and only if R >= 4 or n = 0, for any channel capacities of at least one item |
| PipelineLiveness.RoundRobinIsFair | src/simple_iou_client.cpp:107-276 | Letting everyone move in turn is a run, and a fair one: there are fair runs for every setting |
| Buffers.QueueSendOk | src/simple_iou_client.cpp:120-133 | Taking a small record, writing the id and queueing it is safe, keeps ownership and types, and hands out exactly the next id |
| Buffers.QueueRecvOk | src/simple_iou_client.cpp:145-156 | The same for a page record queued for receiving |
| Buffers.ReapOneOk | src/simple_iou_client.cpp:203-266 | The event type read from memory tells sends from receives correctly, and the record goes back under the size it was taken with |
| Buffers.AnswerReadOk | src/simple_iou_server.cpp:79-101 | Filling a new record and reposting the read record is safe: the two are different, and the write carries the number read |
| Buffers.FilledPage | src/simple_iou_server.cpp:93-99 | The response is a write record of PAGE_SIZE copies of the number read |
| Buffers.RepostingKeepsStore | src/simple_iou_server.cpp:100 | Reposting the read record changes no memory: it is not the response, and holds what the kernel left in it |
| Buffers.RetireWriteOk | src/simple_iou_server.cpp:109-110 | A finished write's record is live and goes back under its own size |
| Buffers.FinishReadOk | src/simple_iou_server.cpp:31-32 | The kernel writes into a live record, and no other operation's meaning changes: the handler's queue gains exactly the number read |
| Buffers.FinishRecvOk | src/simple_iou_client.cpp:152-154 | The kernel writes a page into a live record of that size, and the client's queue gains exactly that page's id |
| Buffers.FinishWriteOk | src/simple_iou_server.cpp:44-46 | What a write sends is still the uniform page that was queued |
| BufferSafety.NewPoolStarts | src/simple_iou_client.cpp:77-79 | The pool the constructor builds for the two record sizes is well formed with nothing handed out, also when the sizes coincide |
| BufferSafety.BuiltPoolsStart | src/simple_iou_client.cpp:77-79 | Two pools as the constructor builds them, with anything in memory behind their blocks, are a start of the machine |
| BufferSafety.MoveRefines | src/simple_iou_server.cpp:49-119 | Every move of the system with buffers is memory safe, keeps ownership, and is one step of the protocol |
| BufferSafety.RunRefines | src/simple_iou_server.cpp:49-119 | Hence every run with buffers is a run of the protocol |
| BufferSafety.EveryStepHasAMove | src/simple_iou_client.cpp:107-276 | And buffers block nothing: whatever step the protocol allows, some move makes it |
| BufferSafety.EveryRunHasMoves | src/simple_iou_client.cpp:107-276 | Over whole runs as well: whatever the protocol can do from a state the system can be in, some moves do |
| BufferSafety.ReachableIffArises | src/simple_iou_client.cpp:107-276 | The states of the protocol that can be reached are exactly those the system with buffers can be in |
| BufferSafety.NeverUnsafe | src/simple_iou_client.cpp:254-261 | In no run does a turn or the kernel touch a record that is not live and large enough, and every deallocate passes the size its block was allocated with |
| BufferSafety.OneOwnerEach | src/simple_iou_server.cpp:93-110 | The blocks held from each pool are exactly those of its queued, in-flight and unreaped operations, each of one operation only |
| BufferSafety.BlocksHeldBounded | src/simple_iou_server.cpp:93-94 | However long the run, the client holds at most q + 2 h blocks and the server at most 2 q + h |
| BufferSafety.HeldSizes | src/simple_iou_client.cpp:77-78 | A request's record is a block of the header's 40 bytes and 4 more, every other record one of the header and a page |
| BufferSafety.NoTrafficWhileRunning | src/buffer_pool.hpp:32-62 | From pools built with enough buffers, 128 up to RING_SIZE 102, neither program calls malloc or free again in any run |
| BufferSafety.BlocksOutAtExit | src/simple_iou_client.cpp:254-261 | When the loop is left, one block is out for each send and each receive not reaped; none is if and only if every page was received |
| BufferSafety.PagesAreGenuine | src/simple_iou_server.cpp:95-97 | Every page that reaches the client is PAGE_SIZE copies of one id it requested |
| BufferSafety.PagesAreDistinct | src/simple_iou_client.cpp:203-266 | No two pages received answer the same request |
| BufferSafety.MoveAnswers | src/simple_iou_server.cpp:98-100 | A move adds one page to those queued so far exactly when it is the server's and finds a completed read |
| IouClients.IouClient.QueueSend | src/simple_iou_client.cpp:120-133 | The body of the first inner loop is exactly one move of the machine |
| IouClients.IouClient.FillSends | src/simple_iou_client.cpp:112-134 | The first inner loop, with the kernel and the server acting between its turns, ends with all requests sent or send_index - recv_index at R / 4 |
| IouClients.IouClient.QueueRecv | src/simple_iou_client.cpp:145-156 | The body of the second inner loop is exactly one move |
| IouClients.IouClient.FillRecvs | src/simple_iou_client.cpp:139-157 | The second inner loop ends with recv_index at send_index or recv_index - iterations_received at R / 2 |
| IouClients.IouClient.Fill | src/simple_iou_client.cpp:111-196 | Both inner loops and the submit, others acting meanwhile: both windows are used to the full |
| IouClients.IouClient.SubmitQueued | src/simple_iou_client.cpp:189-196 | Submitting only if this turn queued something is the same as always submitting |
| IouClients.IouClient.ReapNext | src/simple_iou_client.cpp:203-265 | Handling one completion, by the event type in its record, is exactly one move |
| IouClients.IouClient.ReapAll | src/simple_iou_client.cpp:198-266 | The reaping loop, which others precede and interrupt, ends with an empty queue and count equal to the completions looked at |
| IouClients.IouClient.Advance | src/simple_iou_client.cpp:268-276 | Gives the slots back and breaks out exactly on the two conditions |
| IouClients.IouClient.SendReceiveData | src/simple_iou_client.cpp:107-277 | The whole nested loop passes only through states of the machine; when left, all is sent and posted, at most h pages are missing, and total_received is exact |
| IouClients.IouClient.Leave | src/simple_iou_client.cpp:321 | The pool's destructor at the end of the thread leaves those blocks in the heap, so nothing leaks if and only if every page was received |
| IouClients.RunThread | src/simple_iou_client.cpp:72-277 | The thread from the construction of its pool on: it starts the machine, and what holds when the loop is left holds then |
| IouServers.IouServer.Prologue | src/simple_iou_server.cpp:55-60 | Posts q reads with pool records and submits |
| IouServers.IouServer.FillPage | src/simple_iou_server.cpp:95-97 | The fill loop writes the number into every slot of the page and nothing else |
| IouServers.IouServer.AnswerRequest | src/simple_iou_server.cpp:79-102 | Answering a read is exactly one move of the machine, with two entries taken and submitted |
| IouServers.IouServer.RetireResponse | src/simple_iou_server.cpp:104-111 | Retiring a write is exactly one move |
| IouServers.IouServer.Handle | src/simple_iou_server.cpp:71-115 | The switch makes exactly one move for the completion at the head, and does not close while the client is there |
| IouServers.IouServer.EventLoop | src/simple_iou_server.cpp:49-119 | The handler passes only through states of the machine; write_req_num is the number of pages queued, wherever they are by now, and read_req_num runs q ahead |
| IouServers.RunHandler | src/simple_iou_server.cpp:49-119 | The handler from the construction of its pool on starts the machine and stays in it |
| BufferPools.AllocateRefinesMalloc | src/buffer_pool.hpp:32-47 | allocate gives a buffer of the size asked for that no caller holds and leaves all others alone, like malloc |
| BufferPools.DeallocateRefinesFree | src/buffer_pool.hpp:49-62 | deallocate takes away exactly that buffer, like free |
| BufferPools.PoolStaysSmall | src/buffer_pool.hpp:32-62 | Over any legal run of calls free lists stay within capacity and duplicate-free, mallocs = frees + blocks, and a size class never holds more than it started with or callers needed at their peak |
| BufferPools.NothingLost | src/buffer_pool.hpp:32-62 | mallocs = frees + live + pooled |
| BufferPools.NoTrafficAfterBuilding | src/buffer_pool.hpp:32-62 | From a pool as built, while callers ask for listed sizes and hold at most the initial number of each, every buffer returned is kept and every request served from the pool: mallocs and frees stay as built |
| BufferPools.LastReturnedFirst | src/buffer_pool.hpp:37-57 | A buffer kept is the next one handed out, and handing it out leaves the pool as it was before it was returned |
| BufferPools.BuiltIsUntouched | src/buffer_pool.hpp:10-20 | A new pool is well formed and balanced, with every block pooled and none freed |
| BufferPools.BuiltCounts | src/buffer_pool.hpp:13-18 | It has initial_capacity buffers per listing of a size, so a size listed twice has twice as many |
| BufferPools.BufferPool.constructor | src/buffer_pool.hpp:10-20 | The constructor's nested loops build exactly such a pool |
| BufferPools.BufferPool.Allocate | src/buffer_pool.hpp:32-47 | Takes the last buffer off that size's list, without malloc, or asks malloc for a new one if the list is missing or empty |
| BufferPools.BufferPool.Deallocate | src/buffer_pool.hpp:49-62 | Below capacity the buffer goes to the end of its list and nothing is freed; otherwise it is freed and the lists stay |
| BufferPools.BufferPool.Destroy | src/buffer_pool.hpp:22-30 | The destructor frees every pooled buffer once and nothing else; what callers still hold stays in the heap |
| Flood.StepKeepsInv | src/max_client.cpp:63-93 | Every step of a sender, a receiver or the kernel keeps all connections' invariants and never lowers the shared counter |
| Flood.EntryNeverMissing | src/max_client.cpp:64-67 | The null check on the submission entry never fires |
| Flood.WindowIsFilled | src/max_client.cpp:64-77 | Whenever a sender submits, requests_sent is the least of its requests and requests_completed + R |
| Flood.ExitIsExact | src/max_client.cpp:63-103 | A sender is done only with all requests completed, none failed, nothing queued, in flight or unreaped |
| Flood.FailureIsForever | src/max_client.cpp:83-91 | One failed send, and that sender never leaves its loop in any continuation |
| Flood.BytesConserved | src/max_server.cpp:46-67 | Under any fragmentation and interleaving the counter plus the bytes in streams and in unreaped reads is what all senders pushed |
| Flood.CounterBounded | src/max_server.cpp:62 | The counter never passes the bytes of all requests |
| Flood.EverythingArrives | src/max_server.cpp:139-148 | When all senders have left and all streams are drained, the counter lacks exactly the bytes that sends fell short, so it shows the bytes of all requests if and only if no send was short |
| Flood.ReadsStayPosted | src/max_server.cpp:39-66 | Each handler keeps exactly R reads outstanding until it ends |
| FloodLiveness.TurnWork | src/max_client.cpp:63-103 | Every turn of a sender decreases the work left to it, or only takes it round its loop |
| FloodLiveness.FairSenderLeavesIff | src/max_client.cpp:63-103 | In a fair infinite run a sender leaves its loop if and only if it has no requests, or R >= 1 and none of its sends fails |
| FloodLiveness.FailingRun | src/max_client.cpp:83-91 | A concrete run, one request whose send fails, after which the sender cannot leave whatever comes |
| FloodLiveness.StuckIffWindowFailed | src/max_client.cpp:63-75 | Whatever comes, an unfinished sender sends, completes and fails nothing more if and only if all it sent is accounted for and failures have used up the window or the requests |
| FloodLiveness.RoundRobinIsFair | src/max_client.cpp:63-103 | Going round the connections is a fair run, with all sends succeeding or all failing: both sides of the condition occur |
| FloodTotals.FairTotalIff | src/max_server.cpp:139-148 | In a run fair to everyone in which no read fails, with R >= 1, the shared counter gets to the bytes of all requests if and only if no send is short or fails |
| FloodTotals.ShortStaysBehind | src/max_server.cpp:139-148 | After one short send the counter is below that total at every moment, whatever the fairness |
| FloodTotals.RoundRobinIsAllFair | src/max_server.cpp:46-67 | Going round is such a run, with all sends whole or all short: both sides of the condition occur |
| FloodThreads.FloodClient.QueueSend | src/max_client.cpp:66-74 | The body of the inner loop is exactly one turn of the machine's sender |
| FloodThreads.FloodClient.Fill | src/max_client.cpp:64-75 | The inner loop, with completions arriving meanwhile, ends with all requests sent or R of them not completed; its null check never fires |
| FloodThreads.FloodClient.Submit | src/max_client.cpp:77 | The submit is exactly one turn |
| FloodThreads.FloodClient.ReapNext | src/max_client.cpp:83-91 | Handling one completion is exactly one turn: a failure is reported, only a success counted |
| FloodThreads.FloodClient.ReapAll | src/max_client.cpp:79-91 | The completion loop, which others precede and interrupt, ends with an empty queue and count equal to the completions looked at |
| FloodThreads.FloodClient.Advance | src/max_client.cpp:93-103 | Giving the slots back and testing the loop condition is exactly one turn |
| FloodThreads.FloodClient.SendData | src/max_client.cpp:57-103 | The whole loop passes only through states of the machine; when it ends, completed = sent = n with no failure and an empty ring |
| FloodThreads.FloodServer.Prologue | src/max_server.cpp:39-44 | Queues and submits exactly R reads, within the entries there are |
| FloodThreads.FloodServer.Handle | src/max_server.cpp:49-66 | One completion is exactly one turn of the machine's receiver: an empty or failed read ends it, any other adds its bytes to the shared counter once and is posted again |
| FloodThreads.FloodServer.EventLoop | src/max_server.cpp:34-68 | The handler passes only through states of the machine, its counter stays the machine's while other handlers add to it, and R reads stay outstanding while it goes on |
| Ranges.StartThreads | src/simple_iou_client.cpp:330-340 | The loop that starts the threads gives each its range |
| Ranges.EachRequestOnce | src/simple_iou_client.cpp:330-340 | For any number of requests and threads, each request is in exactly one thread's range |
| Ranges.InOrder | src/max_client.cpp:121-131 | The ranges follow one another without gap from 0 to the number of requests |
| Ranges.Sizes | src/simple_iou_client.cpp:330-335 | All ranges have N / T requests and the last the remainder too, so at most N / T + T - 1 |
| Ranges.CountsAddUp | src/simple_iou_client.cpp:330-335 | The shares add up to all requests |
| Ranges.ExpectedTotalIsExactIff | src/simple_iou_client.cpp:364-365 | The announced total is what the threads expect together if and only if requests times page size is below 2^32, or below 2^62 when one of the two literals is a long |
| Ranges.AnnouncedValue | src/simple_iou_client.cpp:364-365 | In any case the announced total is the true one modulo 2^34, or modulo 2^64 when a literal is a long |
| Ranges.WidthMatters | src/simple_iou_client.cpp:364-365 | Two settings: one announced as 0, one whose long literal keeps it exact |
| Ranges.TotalReceived | src/simple_iou_client.cpp:359-362 | The aggregation loop adds up all threads |
| Ranges.TotalShortfall | src/simple_iou_client.cpp:359-365 | When all threads have left, together they have at most threads * h pages less than the whole, and never more than it |
| Ranges.ThreadsReceiveDisjointIds | src/simple_iou_client.cpp:338-339 | No id is received by two threads in any states they reach, with at most 2^32 requests |
| Ranges.AllIdsDiffer | src/simple_iou_client.cpp:122 | Over the whole range of requests all ids differ if and only if there are at most 2^32 |
| Ranges.FloodNeverPassesTotal | src/max_server.cpp:139-148 | With the threads' ranges, the shared counter never passes max_server's expected total |
| Ranges.FloodReachesTotal | src/max_server.cpp:139-148 | Once all threads have left and everything was read and counted, the counter equals that total if and only if no send was short |
| Wire.NetworkOrderOnTheWire | src/models/get_page.hpp:18-21 | On either kind of host, a field's memory after htonl is most significant byte first, the order of Appendix B of RFC 791 |
| Wire.ByteOrder | src/models/get_page.hpp:18-21 | Which byte is where, on the wire and in either host's memory, and what htonl does on either |
| Wire.Layout | src/models/get_page.hpp:13-35 | The offset and length of every field of a request and of a response header |
| Wire.SwapTwice | src/models/get_page.hpp:36-46 | Converting to network order and back is the identity |
| Wire.RequestRoundTrip | src/models/get_page.hpp:14-27 | A request sent by any host is received unchanged by any host |
| Wire.HeaderRoundTrip | src/models/get_page.hpp:31-46 | The same for a response header |
| Wire.GetPageRequest.ToHostOrder | src/models/get_page.hpp:23-26 | In place: bytes that are some request on the wire become that request |
| Wire.GetPageResponseHeader.ToNetworkOrder | src/models/get_page.hpp:36-40 | In place: the header's memory becomes its bytes on the wire |
| MemoryBlocks.MemoryBlock.Fill | src/memory_block.hpp:50-54 | The fill loop leaves the strategy's value at every index |
| MemoryBlocks.MemoryBlock.Make | src/memory_block.hpp:42-48 | A missing strategy is an error; otherwise the block is filled |
| MemoryBlocks.MemoryBlockVerifier.Verify | src/memory_block.hpp:70-82 | True if and only if the page exists and every one of its 128 bytes is the strategy's value at its place in the block |
| MemoryBlocks.PassesByteForByte | src/memory_block.hpp:75-80 | And that is being equal to that slice of the filled block |
| MemoryBlocks.MemoryBlockVerifier.Make | src/memory_block.hpp:63-68 | A missing strategy is an error for the verifier as well |
| MemoryBlocks.StrategyValues | src/memory_block.hpp:15-34 | The letters from a to z over and over, or 0xAA everywhere |
| MemoryBlocks.AlphabeticalConfusion | src/memory_block.hpp:15-20 | With the alphabetical strategy one page passes as another if and only if 13 divides their distance |
| MemoryBlocks.PseudoRandomConfusion | src/memory_block.hpp:30-33 | With the other strategy every page passes as every other |
| PageService.PageServer.Answer | src/server.cpp:23-58 | On either kind of host, byte for byte: the reply's 140 bytes echo id and page number, with status bytes 0, 0, 0, 0xC8 and the page's content if it exists, 0, 0, 1, 0x90 and 0xFA throughout if not |
| PageService.ReplyBytes | src/server.cpp:28-54 | The same of the reply to any request, with the content as a slice of the block |
| PageService.PageServer.HandleClient | src/server.cpp:16-59 | The loop answers every whole request in turn and stops at the first read that is not one |
| PageService.ReplyAt | src/server.cpp:16-59 | The k-th block of 140 bytes sent is the reply to the k-th request, for every request before the first that did not arrive whole |
| PageService.RepliesLength | src/server.cpp:16-59 | And nothing else is sent |
| PageClients.PageClient.ReadResponse | src/client.cpp:66-80 | Whatever the reads bring, the response starts with the stream's next bytes in order, as many as those reads take, and nothing else of it changes |
| PageClients.PageClient.ToHostOrder | src/models/get_page.hpp:42-63 | The three header fields are swapped in place and the content is untouched |
| PageClients.PageClient.RequestPage | src/client.cpp:58-85 | One request: what is left unread and, if full, the response are what the course of all exchanges so far says, whatever failed before |
| PageClients.PageClient.Check | src/client.cpp:87-108 | A response is good exactly when its status is 200 and its content verifies for the page number it carries |
| PageClients.GoodBytes | src/client.cpp:87-108 | In bytes: status 0, 0, 0, 0xC8, an existing page number, and that page's 128 values, whatever the host |
| PageClients.PageClient.Run | src/client.cpp:51-108 | The request loop: both counts and the bytes left unread, for every course of exchanges, failing or not |
| PageClients.WhatIsCounted | src/client.cpp:61-108 | In every course, correct is the number of exchanges whose response was filled and good, and correct + incorrect of those whose response was filled: failed sends, failed reads and closed connections count nowhere |
| PageClients.FailedReadCountsNothing | src/client.cpp:71-85 | A concrete failing course: one answered request whose read fails leaves both counts at 0 |
| PageClients.StopsAtFailure | src/client.cpp:68-80 | Reads go on until the first that fails or brings nothing: what they take is what came before it, as far as it is wanted and there |
| PageClients.GoodReply | src/client.cpp:87-108 | The reply to the i-th request carries id i, and passes exactly when the server has the page, even if client and server page counts differ |
| PageClients.StreamGrows | src/server.cpp:16-59 | Over a course of exchanges the server sends the reply to each request that, like all before it, arrived whole |
| PageClients.AlignedIff | src/client.cpp:66-85 | While the server answers, nothing is left unread if and only if every response was filled: after one short reply the stream never realigns |
| PageClients.AlignedResponse | src/client.cpp:66-87 | A response filled while nothing was left over is the reply to its own request |
| PageClients.ShiftedResponse | src/client.cpp:66-87 | With whole replies left over, it is the reply to the request that many back |
| PageAlignment.PartIs | src/server.cpp:16-59 | The stream is the replies to increasing request numbers, 140 bytes each |
| PageAlignment.StraddleIsNoReply | src/models/get_page.hpp:30-65 | What lies across two replies, whatever the offset, is never the reply to a request with no smaller number |
| PageAlignment.OwnReplyIff | src/client.cpp:66-87 | A full response to an answered request is the reply to that request if and only if every response before it was filled |
| PageClients.StaleReplyCounts | src/client.cpp:71-108 | A concrete course: the first read fails, and the second exchange takes reply 0 for its own and counts it as correct |
| PageClients.CleanCounts | src/client.cpp:55-108 | If no read fails, correct is the number of answered requests for pages the server has, and correct + incorrect all answered |
| PageClients.CorrectClosedForm | src/client.cpp:55-108 | With the first m requests answered and the next one, if any, cut short: correct = (m / C) * min(C, S) + min(m % C, S) for C client pages and S server pages, and correct + incorrect = m |

## Left out

- Socket setup, accept, thread creation and joining, close, liburing and kernel internals beyond the rules above.
- Timing, rates, logging and the array printers: output only. So is the 95 percent wait loop of max_server's `main`.
- Builds with VERIFY, VERBOSE or ALLOCATE_MALLOC set, and commented-out code: off by default.
- Short transfers, failing operations (on which the client exits the process) and the server's end after the client
  has left, in the pipelined pair: the code has no logic to recover from them.
- The `seq` numbers, `buffer_offset` and `buffer_size` of operation records: stored and never read.
- PAGE_SIZE = 0: the pipelined results take a page of at least one slot.
- Overflow of the client's int counters, which takes 2^31 requests in one thread.
- The record buffers and pool of max_server, and the contents of max_client's one buffer: never looked at.
- IouServers.IouServer.EventLoop: bounded by a schedule of what others do, as the source's loop ends only with the client; progress is in PipelineLiveness.
- IouClients.IouClient.SendReceiveData: likewise ends with its schedule if the loop has not been left by then; that fair runs leave it is PipelineLiveness.FairRunsExit.
- PageClients.PageClient.Run: the number of requests stays within 2^31 and the client's page count above 0, as the source needs.
- A failing write of a reply in server.cpp, which only logs, and a partial send in client.cpp that the client notices.
- FloodThreads.FloodServer.EventLoop, FloodThreads.FloodClient.SendData: bounded by schedules like the loops above; FloodLiveness has the infinite runs.
- Wrap-around of 64-bit byte counts other than in the announced total; a product of longs beyond 2^63, which C++ leaves undefined, is taken to wrap.
- The growth of a full std::vector is taken as doubling, which matters only for a size listed twice.
- server_iou.cpp, client_iou.cpp and static_config.hpp: the first two are not built, the last reads the environment.
- Experiment, plotting and container scripts.
