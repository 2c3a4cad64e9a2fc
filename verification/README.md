# GrizzlyCloud: a model and its proofs

GrizzlyCloud forwards local TCP connections through a relay to a peer. This project models the four cores below its socket
calls and proves what they promise; where the code falls short of that, it proves for which inputs exactly.

- **The wire** (`Bytes`, `Proto`, `Codec`, `RingBuffer`, `Wire`, `Upstream`, `Tokens`, `Headers`, `Traffic`, `Inbox`,
  `Drain`): a message is serialised, framed, queued, drained by partial writes, reassembled from chunks, parsed, cut into
  tokens and handed to its handler. Each stage is proved against byte sequences, and the stages compose end to end. The
  relay is not part of this model: the sender's bytes are what the receiver reads, in any pieces.
- **The pool** (`Pool`, `Allocator`, `Chain`): size classes with free lists, a metadata word before each block, eager
  refill. The shipped build defines POOL_STDLIB (src/include/pool.h:24), which replaces all of it by malloc, realloc and
  free; the model is of the allocator behind that switch. Requests are positive: the root holder has size 0 and no node.
- **The clients of tunnels** (`HashTable`, `HashTableClass`, `Server`, `Locals`, `LocalRuns`, `Responses`): the chained
  table of a server's clients, as intended and as written, against a map; and a machine of tunnels, their tables and the
  clients that exist, from accept to hang-up, on whose runs server shutdown and the routing of responses are judged.
- **The session** (`Process`, `Ports`, `Links`, `Endpoints`, `Access`, `EndpointList`, `Connections`, `Backend`, `Pairs`,
  `Pairing`, `PairTable`, `Session`, `SessionRuns`, `Clocks`, `Stops`, `Messages`, `Conversations`, `Dialogue`,
  `SessionClass`): the linked lists of endpoints and tunnels, the configured slots, and the upstream connection with its
  timers, its write watcher and its send queue, as one state machine whose steps are the handlers; what each message does
  to it, from its bytes; and what two such processes do to each other.

Code that changes things in place is a class or a loop here too, with arrays and linked nodes where the source has them,
and each such method is proved equal to a function; the lemmas are about those functions and about all their runs.
`Wrappers` holds an option type.

Integers that the C code keeps in `int` are `int32` where their width matters (lengths, frame sizes, key sums stay within
it); a pointer into the pool is a region and an offset. What sockets return, errno, and timers that fire are events or
parameters; what the code makes of them is computed. Memory that is used after it was freed is a fate of its own,
`Strayed`.

## Where the code and its purpose part

| what | the exact condition |
|---|---|
| A read chunk that crosses a frame boundary loses bytes | `Wire.ExactIffClean`, `Wire.TwoPingsAtOnce` |
| A message with an empty body blocks the socket it is for; the upstream's never is | `Drain.QueueEmptiesIff`, `Drain.AllLeaveIff`, `Backend.BackendEmptiesIff`, `Responses.SocketEmptiesIff`, `Wire.NeverStalls` |
| gc_ringbuffer_send_pop_all leaves `send` and `tail` pointing at freed slots | `RingBuffer.SendQueue.SendPopAll` |
| stop() frees the upstream's slots, then appends behind them; a second stop() frees the configuration again | `SessionRuns.StopStraysIff`, `Stops.StopStrays`, `Stops.StopFreesTwice` |
| stop() may ask for itself again | `SessionRuns.StopRearmsIff`, `SessionRuns.StopTwiceStrays` |
| After stop() the process may connect again | `SessionRuns.StopReconnectsIff`, `Stops.StopReconnects` |
| The error-string checks accept every string | `Proto.ErrorCheckAcceptsAll` |
| A field may claim more bytes than there are | `Proto.ParsedInsideIff`, `Proto.ParseAcceptsOverlongField` |
| The loop over a traffic list reads outside the list | `Traffic.StaysInsideIff`, `Traffic.OverlongFieldStrays` |
| The last token of a header needs a body shorter than 2^24 bytes | `Headers.ReceivedHeaderTokens` |
| A header is cut at its buffer's end | `Headers.PrintedTokensIff`, `Headers.FdSurvivesRoundTripIff`, `Pairs.NoticeReadIff` |
| hm_prealloc for the class size leaves the recorded size, so a later growth copies too little | `Chain.LosesIff` |
| ht_get returns a lone entry unseen, ht_rem clears the bucket | `HashTable.GetAgreesIff`, `HashTable.RemAgreesIff`, `HashTable.AlwaysRefinesIff` |
| A client is forgotten when another of its bucket hangs up | `LocalRuns.HeldIff` |
| Server shutdown misses clients | `LocalRuns.ShutdownReachesLiveIff`, `SessionRuns.TunnelStopReachesIff` |
| A response is lost, or goes to another client | `LocalRuns.ResponseFindsIff`, `Responses.GetsIff` |
| A connect() that does not fail at once, errno being other than EINPROGRESS, leaves an endpoint without its client | `Endpoints.RunKeepsInvIff`, `Endpoints.DanglingEndpointUsed` |
| Such a connect() to the upstream is never retried | `Session.StrandedIff` |
| endpoint_stop ignores the descriptor | `Endpoints.StopHitsConnectionIff` |
| A payload reaches another descriptor's endpoint | `Endpoints.StrangerReaches` |
| A descriptor that comes back reaches the endpoint of an earlier connection | `Connections.ConnectionsApartIff`, `Connections.DescriptorComesBack` |
| tunnel_denied aborts the process that reads it | `SessionRuns.DenialAbortsPeer` |
| stop() leaves paired slots without tunnels | `Session.AlwaysPairedIff`, `Stops.StopUnpairs` |

## Model

| member | source | states |
|---|---|---|
| Bytes.SwapMemory | src/utils.c:61-70 | The XOR loop reverses any run of bytes in place, odd lengths included, and touches nothing else |
| Bytes.XorSwaps | src/utils.c:61-70 | Three XOR assignments exchange two bytes |
| Bytes.SwappedTwice | src/utils.c:61-70 | Swapping the same bytes twice restores them |
| Bytes.Be32RoundTrip | src/proto.c:178-208 | Writing and reading an `int` in wire order are inverse to each other, on all integers and on all four-byte words |
| Bytes.Be32BigEndian | src/proto.c:178-193 | The word on the wire has the most significant byte first; that byte is zero exactly for 0 up to 2^24 - 1 |
| Proto.ParseEncoded | src/proto.c:405-613 | For all 24 message types and all contents, parsing an encoding, whatever follows it, gives the message back; the fields tile the bytes from 8 to the end without overlap |
| Proto.ParsedInsideIff | src/proto.c:210-225 | Parsing succeeds with every field inside the input exactly on inputs that begin with the encoding of some message |
| Proto.ParsedInsideReencodes | src/proto.c:405-613 | Encoding what such an input parses to gives its first bytes back |
| Proto.ParseAcceptsOverlongField | src/proto.c:216-222 | An input that claims five bytes where two are left is accepted, though it encodes nothing |
| Proto.RefusedWith | src/proto.c:405-425 | Code 2 for another version, 1 for an input without version and type, -1 for an unknown type, before any field is read |
| Proto.EncodePrefixFree | src/proto.c:237-399 | No encoding is a prefix of another: distinct messages have distinct bytes, and a stream has one reading |
| Proto.EncodeFieldsLength | src/proto.c:159-176 | The encoded fields take four bytes each plus their contents |
| Proto.ErrorCheckAcceptsAll | src/proto.c:252-260 | With sn_memcmp being 1 on equality, a check against two or more distinct strings refuses nothing |
| Proto.ErrorAlwaysPasses | src/proto.c:237-399 | So no error string of any message makes gc_serialize fail |
| Codec.Sn.AddIntern | src/proto.c:159-176 | Appends the big-endian length and the bytes to what the buffer holds |
| Codec.Sn.AddIntIntern | src/proto.c:178-193 | Appends the integer in wire order |
| Codec.Sn.GetIntIntern | src/proto.c:195-208 | Reads what AddIntIntern wrote and moves on by four bytes, or fails where fewer are left |
| Codec.Sn.GetIntern | src/proto.c:210-225 | Yields the field's slice and the offset behind it as the parser specification has them, unchecked length included |
| Codec.Sn.MemoryAppend | src/utils.c:32-37 | Puts the bytes at the offset, keeps those before it and those behind them, and moves the offset |
| Codec.Serialize | src/proto.c:237-399 | Never fails, and leaves exactly the message's encoding in the buffer |
| Codec.Deserialize | src/proto.c:405-613 | Computes what the parser specification says of the buffer, failures and their codes included |
| RingBuffer.PendingAppended | src/ringbuffer.c:91-121 | Appending a buffer adds its bytes at the end of what is pending |
| RingBuffer.PendingSkipped | src/ringbuffer.c:51-59 | Skipping t bytes takes the first t off what is pending |
| RingBuffer.StalledIffNothingOffered | src/ringbuffer.c:22-49 | A non-empty queue offers nothing exactly when an empty buffer is at its head |
| RingBuffer.SendQueue.SendNext | src/ringbuffer.c:22-34 | Offers the unsent rest of the head |
| RingBuffer.SendQueue.SendSkip | src/ringbuffer.c:51-59 | The list stays acyclic with `tail` its last node, and bytes appended are bytes skipped followed by bytes pending |
| RingBuffer.SendQueue.Next | src/ringbuffer.c:36-49 | Frees the head exactly when all of it was sent, and `tail` is NULL exactly when `send` is |
| RingBuffer.SendQueue.SendIsEmpty | src/ringbuffer.c:61-65 | True exactly when no buffer is queued |
| RingBuffer.SendQueue.SendAppend | src/ringbuffer.c:91-121 | The buffer becomes the last of the list, and the FIFO account grows by its bytes |
| RingBuffer.SendQueue.SendPopAll | src/ringbuffer.c:67-77 | Returns every slot to the pool; the queue's invariant holds afterwards exactly if it was empty before |
| RingBuffer.SendQueue.SendSize | src/ringbuffer.c:79-89 | Adds up the lengths of all queued buffers |
| RingBuffer.TotalLengthOverPending | src/ringbuffer.c:79-89 | That size exceeds what is pending by what the head already sent |
| RingBuffer.RecvBuffer.RecvAppend | src/ringbuffer.c:123-130 | The chunk follows what was accumulated |
| RingBuffer.RecvBuffer.RecvPop | src/ringbuffer.c:132-141 | Nothing stays accumulated, used or not |
| Upstream.DrainByHalves | test/rb/main.c:33-42 | Sending half of what is offered each time ends with an empty queue and with every byte appended sent, in order |
| Upstream.UpstreamClient.PacketSend | src/utils.c:84-100 | Performs the link's Send step: the frame of the message is queued whole |
| Upstream.UpstreamClient.NetSend | src/utils.c:39-59 | Queues the big-endian length and the bytes as one buffer |
| Upstream.UpstreamClient.AsyncWrite | src/async_client.c:143-196 | For any result of SSL_write and any errno: the link's Write step with the bytes taken, and which of WANT_SHUTDOWN, retry, error and terminate follows |
| Upstream.UpstreamClient.AsyncRead | src/async_client.c:86-141 | For any result of SSL_read and any errno: the link's Read step for the chunk, and which error, if any, is reported |
| Upstream.UpstreamClient.RecvAppend | src/async_client.c:22-51 | Completes at most one frame, wraps the target as a 32-bit integer, and drops what lies behind the frame |
| Wire.CleanRunKeepsInv | src/async_client.c:22-51 | At every point of a run without crossing chunks, delivered frames, accumulator, wire and queue add up to what was sent |
| Wire.EndToEnd | src/gcapi.c:351-358 | In such a run the frames delivered are those sent, each once and in order, and nothing is buffered when all has arrived |
| Wire.DeliveredFrameParses | src/gcapi.c:351-358 | Behind its length word, the frame of a message parses to that message |
| Wire.MessagesArrive | src/gcapi.c:351-358 | End to end on messages: those parsed at the far end of such a run are the first of those given to gc_packet_send, and all of them once all bytes are there |
| Wire.BytesConserved | src/ringbuffer.c:132-141 | In every run, bytes sent are bytes delivered, lost or under way |
| Wire.CrossingLoses | src/ringbuffer.c:132-141 | A chunk that reaches past the frame's end loses exactly the bytes past it |
| Wire.TwoAtOnce | src/ringbuffer.c:132-141 | Two messages, whatever they are, written whole and read in one chunk: the first is delivered, and every byte of the second is lost |
| Wire.TwoPingsAtOnce | src/ringbuffer.c:132-141 | Two pings read as 24 bytes: one frame is delivered, 12 bytes are lost |
| Wire.ExactIffClean | src/async_client.c:22-51 | Once all bytes are read, what was delivered is what was sent if and only if no chunk crossed a frame boundary |
| Wire.NeverStalls | src/utils.c:39-59 | In every run no empty buffer is queued for the upstream, and the write watcher is started while anything is queued |
| Wire.UpstreamDrains | src/async_client.c:143-196 | After every run, whatever SSL_write takes each time, as many writes as there are bytes pending empty the queue, and the wire has them all |
| Drain.EveryScheduleEnds | src/ringbuffer.c:22-59 | Without empty buffers, under any schedule of partial writes: taken and pending bytes make up the same bytes throughout, each write leaves fewer pending, and the queue is empty within that many writes |
| Wire.WriteIsDrain | src/async_client.c:143-196 | A write of the upstream that takes something is a step of that machine |
| Drain.QueueEmptiesIff | src/async_client.c:482-525 | Over every run of payloads and writes of a plain client, the queue can still be emptied exactly if no payload was empty |
| Drain.AllLeaveIff | src/async_client.c:504-507 | Over every such run, all bytes can still leave exactly if nothing but empty payloads followed the first empty one |
| Drain.NothingPassesEmpty | src/async_client.c:504-507 | What left is a prefix of what was given, and nothing of it was given after an empty payload |
| Tokens.JoinSplit | src/utils.c:102-125 | Joining the pieces of a split gives the text back |
| Tokens.SplitJoin | src/utils.c:102-125 | Splitting joined pieces that hold no delimiter gives the pieces back |
| Tokens.ParseDelimiter | src/utils.c:102-125 | argv points to the start of every piece; each delimiter byte becomes NUL and no other byte changes |
| Tokens.CutReads | src/utils.c:102-125 | Read as C strings, the pointers yield the pieces exactly when a NUL follows the text |
| Tokens.ReadString | src/gcapi.c:56 | The loop of strlen yields the bytes up to the next NUL, or leaves the memory where there is none |
| Headers.ReceivedHeaderTokens | src/gcapi.c:44-56 | For every parsed MESSAGE_FROM with a header free of NUL, argv reads as the '/'-pieces exactly when the body is shorter than 2^24 bytes |
| Headers.ValueDecimal | src/tunnel.c:105-114 | A printed descriptor reads back as itself |
| Headers.RequestText | src/tunnel.c:105-114 | Up to 46 characters the request header is the text tunnel_request/port/descriptor/port, the remote port first |
| Headers.ResponseText | src/endpoint.c:69-74 | And the response header tunnel_response/port/descriptor |
| Headers.FdSurvivesPrint | src/tunnel.c:105-107 | Eight bytes hold the printed descriptor exactly below ten million |
| Headers.PrintedTokensIff | src/tunnel.c:109-115 | Pieces joined and printed into a buffer of any size split into the same pieces exactly if the buffer holds them all |
| Headers.RequestHeaderTokensIff | src/tunnel.c:109-115 | The request header splits into its four parts exactly if ports and descriptor have at most 46 characters together |
| Headers.RequestHeaderKeepsThree | src/tunnel.c:109-115 | The peer finds four parts, the first three whole, exactly if remote port and descriptor have at most 46 |
| Headers.ResponseHeaderTokensIff | src/endpoint.c:69-74 | The response header splits into its three parts exactly if port and descriptor have at most 46 characters |
| Headers.FdSurvivesRoundTripIff | src/endpoint.c:66-88 | Port and descriptor survive print, split, echo and split again exactly below ten million and up to 46 characters |
| Headers.DeniedAborts | src/gcapi.c:62-84 | For every port, the tunnel_denied header is dispatched to abort() |
| Traffic.GroupsFlat | src/gcapi.c:284-316 | Grouping the fields of a list of records gives the records |
| Traffic.StaysInsideIff | src/gcapi.c:284-316 | The fields read stay inside the list exactly if the list is an encoding of fields |
| Traffic.OverlongFieldStrays | src/gcapi.c:301-305 | A list whose one field claims five bytes and has one encodes nothing, and the loop leaves it |
| Traffic.TakeField | src/gcapi.c:301-305 | Reads one field and moves the index behind it, or finds that the field leaves the list |
| Traffic.ParseTraffic | src/gcapi.c:284-316 | On every list that encodes fields the loop ends at its end, having reported each complete record once and in order, or one empty record for an empty list; on every other it leaves the list |
| Ports.AtoiItoa | src/include/utils.h:135-147 | atoi undoes "%d" on every integer |
| Ports.AtoiReads | src/include/utils.h:135-147 | atoi passes over white space and one sign and reads digits up to the first other character |
| Ports.PortSurvivesIff | src/include/utils.h:135-147 | sn_atoi undoes sn_itoa exactly on numbers of at most seven characters |
| Pool.MetaNamesNode | src/pool.c:25 | The word before a pointer names the node it was made from |
| Pool.SizeClass.Carve | src/pool.c:150-172 | A block of a new region gets its word and heads the free list; lists and layout stay sound |
| Pool.SizeClass.CreateBucket | src/pool.c:124-178 | Adds nodes and a region, both new, and leaves a free node |
| Pool.SizeClass.GetNode | src/pool.c:75-106 | Hands out the head of the free list, counts it, and refills the list before it is empty: every node is free or live, never both |
| Pool.SizeClass.PutBack | src/pool.c:62-68 | The node goes from live to the head of the free list |
| Allocator.Allocator.constructor | src/pool.c:109-122 | The invariant holds of a pool with its holder alone |
| Allocator.Allocator.Find | src/pool.c:300-308 | The search finds the one class of a size, or none |
| Allocator.Allocator.CreateAppend | src/pool.c:180-210 | A class of a size not there yet is appended, with new nodes; sizes stay distinct multiples of 16 |
| Allocator.Allocator.Palloc | src/pool.c:290-321 | Returns a block that was not live, of the request rounded up to 16; the live nodes grow by it alone and no byte of memory changes |
| Allocator.Allocator.Pfree | src/pool.c:40-73 | A live block goes to the head of the free list of its own class; NULL or a block already free gives -1 and changes nothing |
| Allocator.Allocator.NoOverlap | src/pool.c:150-155 | Blocks live at the same time share no byte and cover no metadata, and each holds what was asked for |
| Allocator.Allocator.Store | src/pool.c:104-105 | A caller's write inside its block keeps the whole invariant, metadata words included, and changes no other live block |
| Allocator.Allocator.Memcpy | src/pool.c:275-279 | Copies to the start of one live block and changes no other |
| Allocator.Allocator.Prealloc | src/pool.c:220-288 | In every branch: which block is live afterwards, what is on record, how many bytes carry over, and that all other blocks keep size and contents; never are both old and new block live |
| Allocator.Allocator.PreallocRecorded | src/pool.c:255-288 | With the record updated in the same-size branch, the smaller of last and new request carries over in every branch |
| Chain.OnRecordSince | src/pool.c:255-260 | Requests for the class size leave on record the request before them |
| Chain.LosesIff | src/pool.c:255-279 | A chain of reallocations carries over too little at its end exactly if a request that is no multiple of 16 was followed by requests for its class size only, and the last is larger and of another size |
| Chain.TenSixteenThirtyTwo | src/pool.c:255-279 | 10, 16, 32: ten bytes are carried over where sixteen are promised |
| HashTable.HtKey | src/hashtable.c:41-50 | The loop computes the bucket of a key |
| HashTable.DigitsIndexable | src/hashtable.c:41-50 | Keys of decimal digits fall into buckets 0 to 4095 |
| HashTable.AddRefines | src/hashtable.c:52-131 | Adding or replacing updates the map at the key and nowhere else, and chains stay free of duplicates |
| HashTable.RemIntendedRefines | src/hashtable.c:133-163 | Without the clearing of the bucket, removing takes the key out of the map and nothing else |
| HashTable.GetAgreesIff | src/hashtable.c:165-190 | As written, ht_get agrees with the map exactly for keys that are there and for buckets that do not hold one single entry |
| HashTable.RemAgreesIff | src/hashtable.c:133-163 | As written, ht_rem removes its key alone exactly if the key is absent or has no sibling in its bucket |
| HashTable.IntendedRefines | src/hashtable.c:52-190 | After every run of additions and removals the intended table is the map |
| HashTable.AlwaysRefinesIff | src/hashtable.c:133-163 | The table as written is the map throughout a run exactly if no removal ever finds a sibling |
| HashTableClass.Ht.Get | src/hashtable.c:165-190 | The walk over the chain returns what the specification of ht_get says |
| HashTableClass.Ht.Add | src/hashtable.c:52-131 | Relinks one chain as specified; every node stays in one bucket only |
| HashTableClass.Ht.Remove | src/hashtable.c:133-163 | Unlinks, then clears the bucket, as written |
| Server.KeysAgreeIff | src/async_server.c:231-235 | The key a client is added under is the one it is removed under exactly below ten million |
| Server.SameBucketIff | src/hashtable.c:41-50 | Two descriptors share a bucket exactly when their printed characters add up to the same |
| Server.Server.AddClient | src/async_server.c:231-244 | The client is live, and registered under its descriptor as printed into eight bytes |
| Server.Server.ClientShutdown | src/async_server.c:41-80 | The client is live no longer, and the table is as ht_rem leaves it |
| Server.Server.Shutdown | src/async_server.c:436-456 | While the body changes the table, the loop shuts down the head of every bucket once, in order, and no other live client; buckets end empty but for heads of eight digits or more |
| Server.ShutdownReachesIff | src/async_server.c:446-451 | A table of existing clients is shut down to the last client of its tunnel, each once, exactly if it has all of them and no two share a bucket |
| Server.KeptRem | src/hashtable.c:133-163 | A client that hangs up is out of the table; with it, if it was there, all others of its bucket, and no one else |
| Locals.RunKeepsInv | src/async_server.c:41-80 | Over every run of tunnels that come and go, accepts, hang-ups, requests and responses: descriptors and tunnels stay distinct, and each table holds existing clients of its own tunnel under their own keys |
| Locals.ServersShutFacts | src/tunnel.c:235-279 | Servers shut down one after the other reach the clients that head a bucket of one of their tables, and no other, with one notice each |
| LocalRuns.HeldIff | src/hashtable.c:133-163 | After every run an existing client is in its tunnel's table exactly if no client of its bucket that was in the table has hung up since it was accepted |
| LocalRuns.ShutdownReachesLiveIff | src/async_server.c:436-456 | After every run, shutting a tunnel's server down reaches every existing client of it, each once, exactly if none lost its entry so and no two share a bucket |
| LocalRuns.SiblingForgotten | src/hashtable.c:157 | Of two clients in one bucket, one hangs up: the other is still there, not in the table, and stopping all tunnels passes it by |
| LocalRuns.TwelveForgetsTwentyOne | src/hashtable.c:157 | Accept 12, accept 21, 12 hangs up: no shutdown reaches 21 any more |
| LocalRuns.OrphanStrays | src/async_server.c:57-72 | What such a client does once its tunnel is gone uses the freed server |
| LocalRuns.LongDescriptorStrays | src/async_server.c:231-235 | The entry of a descriptor of eight digits outlives the client, and the server's shutdown uses it |
| LocalRuns.FoundIff | src/tunnel.c:24-43 | The search by port and descriptor finds the client meant exactly if its tunnel's table has it and no earlier tunnel to that port has a bucket of one in the same place |
| LocalRuns.ResponseFindsIff | src/tunnel.c:70-127 | After every run: where port and descriptor of a request header come back whole (Headers.FdSurvivesRoundTripIff says when), they lead back to the existing client exactly if its entry was not cleared with a sibling's and there is no such earlier tunnel; Conversations.ThereAndBack states it of the messages that are sent |
| LocalRuns.TwelveGetsTwentyOnesResponse | src/hashtable.c:175-178 | Client 12 of one tunnel gets the response meant for client 21 of another |
| Responses.QueueIsGiven | src/tunnel.c:85-91 | Over every run of the tunnels, what an existing client's queue gains is the payloads of the responses that find it, all of them, in order |
| Responses.GetsIff | src/tunnel.c:24-43 | A response finds a client exactly if the client's table has it, the port is its tunnel's, it names the client's descriptor or another of the same bucket in which the client is alone, and no earlier tunnel to that port answers |
| Responses.FairIff | src/tunnel.c:24-43 | Of one response: the client gets it when and only when it names the client, exactly unless an earlier tunnel answers in its place or the client is alone in the bucket of another descriptor named |
| Responses.OwnInOrder | src/tunnel.c:70-94 | While a client stays in its table and no response goes wrong so, it is given exactly the responses under its descriptor at its port, in order |
| Responses.SocketEmptiesIff | src/async_client.c:504-507 | A tunnel's client accepted in any run, through any further run and any writes of its socket: its queue can be emptied exactly if no response that found it was empty |
| Endpoints.StepKeepsInvIff | src/async_client.c:566-571 | An event keeps keys and clients distinct and every client linked exactly unless it is a request for a new endpoint whose connect() returns other than -1 with errno other than EINPROGRESS, or whose texts do not fit |
| Endpoints.RunKeepsInvIff | src/endpoint.c:24-269 | The same over every interleaving of requests, data, errors and stops |
| Endpoints.RecvNeverAborts | src/endpoint.c:60-97 | Then data from any client goes upstream under its endpoint's address, port and descriptor; the abort is not reached |
| Endpoints.ImmediateConnectBreaks | src/async_client.c:566-571 | connect() returning 0 with errno 0 drops the client and leaves its endpoint |
| Endpoints.RefusedConnectKeeps | src/async_client.c:566-571 | connect() returning -1 with ECONNREFUSED keeps both |
| Endpoints.DanglingEndpointUsed | src/endpoint.c:217-238 | After a request that drops its client the endpoint stays linked, and the next payload under its key goes to the freed client |
| Endpoints.ErrorTakesOne | src/endpoint.c:99-105 | An error of a client takes that client and its endpoint, and leaves every other endpoint and all payloads as they were |
| Endpoints.LeftForGood | src/endpoint.c:24-44 | A client unlinked once is never linked again |
| Endpoints.FirstPayload | src/endpoint.c:217-238 | A new endpoint's client begins with the payload of the request that made it |
| Endpoints.PayloadsStayTogether | src/endpoint.c:186-243 | Over every run a linked client is given the payloads under its key, all of them, in order of arrival, and no other |
| Endpoints.KeyDetermines | src/endpoint.c:213-215 | Among addresses of one length a key stands for one address and one descriptor |
| Endpoints.StrangerReaches | src/endpoint.c:213-231 | A request adds its payload to an endpoint's queue exactly if its address and descriptor read like the endpoint's one after the other |
| Endpoints.ConnectionsShareAKey | src/endpoint.c:213-231 | Descriptor "b1" at address "a" reaches the endpoint of descriptor "1" at address "ab" |
| Endpoints.DescriptorIsolated | src/endpoint.c:186-243 | With addresses of one length, a client is given what came from its own descriptor at its own address, in order, and nothing else |
| Connections.ReceiverGets | src/endpoint.c:213-238 | In every unbroken run, a request's payload goes to the one client that Receiver names, and no other queue changes |
| Connections.StaysIff | src/endpoint.c:99-269 | An event takes an endpoint exactly if it is its client's error, a stop of all, or a notice while it is the newest of its address, and leaves it unchanged otherwise |
| Connections.LaterReachesIff | src/endpoint.c:213-231 | A request reaches the client an earlier one made exactly if it reads the same key and nothing took the endpoint in between, from whatever connection it is |
| Connections.ConnectionsApartIff | src/endpoint.c:186-269 | With every request labelled by its connection: no client is given payloads of two connections exactly if, whenever a key comes back with another connection, the first one's endpoint was taken before |
| Connections.DescriptorComesBack | src/gcapi.c:26-36 | 12 and 13 of one address, the notice that 12 ended, then a new 12: one endpoint is left, and the new connection's payload follows the old one's in its queue |
| Endpoints.ReuseIgnoresPort | src/endpoint.c:217-231 | An endpoint is reused by key, whatever backend port is asked for |
| Endpoints.StopRemovesFirst | src/endpoint.c:245-269 | A stop notice removes the first endpoint of its address and no other |
| Endpoints.StopHitsConnectionIff | src/gcapi.c:26-36 | That is the endpoint of the connection that ended exactly if it is the newest of its address |
| Access.RefusedIff | src/endpoint.c:46-58 | Whatever the port's text: the request is refused, with one message to its sender and nothing else, exactly if the number that atoi reads in it is not configured |
| Access.PrintedRefusedIff | src/endpoint.c:194-209 | A request for the port n as "%d" prints it, in up to seven characters, is refused exactly if n is not one of the configured numbers |
| Access.OnlyConfigured | src/endpoint.c:186-243 | Over every run, an endpoint whose port is the number n was opened because n is configured |
| Access.ConfiguredNeverRefused | src/endpoint.c:194-209 | Over every run, nothing that was sent refuses a configured port |
| Access.FirstRequest | src/async_client.c:534-577 | A first request for a configured port, for every result of socket() and connect() and every errno: no endpoint and one client shut down, an endpoint whose client is shut down, or an endpoint whose client has the payload; texts over 256 bytes abort |
| Links.Unlink | src/endpoint.c:34-35 | Relinking around a node leaves a list of the other nodes, in order and acyclic |
| EndpointList.EndpointList.StopClient | src/endpoint.c:24-44 | The walk with a pointer to the node before unlinks the client's node, if there is one, and no other |
| EndpointList.EndpointList.PortAllowed | src/endpoint.c:46-58 | True exactly if one of the configured numbers is the one atoi reads in the port |
| EndpointList.EndpointList.Recv | src/endpoint.c:60-97 | Sends the data under the client's endpoint, or aborts where there is none |
| EndpointList.EndpointList.Add | src/endpoint.c:107-156 | A new node heads the list; the state for every result of socket() and connect() and every errno, and for texts that do not fit |
| EndpointList.EndpointList.Find | src/endpoint.c:158-168 | The walk returns the first node with the key |
| EndpointList.EndpointList.StopAll | src/endpoint.c:170-184 | The walk shuts every node's client down, and the list is empty |
| EndpointList.EndpointList.Request | src/endpoint.c:186-243 | Denies, reuses or makes an endpoint, and queues the payload, as specified |
| EndpointList.EndpointList.Stop | src/endpoint.c:245-269 | The walk shuts down the client of the address's first node and unlinks that node, and no other |
| Backend.BackendEmptiesIff | src/endpoint.c:236-238 | A connection from its first request on, through any events of the endpoints and any writes of its socket: its queue can be emptied exactly if none of its messages had an empty body |
| Backend.EmptyRequestStalls | src/endpoint.c:236-238 | A first request with an empty body: its backend gets nothing of what follows |
| Backend.EmptyResponseStalls | src/tunnel.c:89-91 | A first response with an empty body does the same to a tunnel's client |
| Pairs.RepliedKeepsPaired | src/gcapi.c:165-201 | After any pair reply, local port 0 included, every slot with a pid has a tunnel with that pid, cloud, device and remote port |
| Pairs.OfflineKeepsPaired | src/gcapi.c:111-124 | So it is after an offline notice |
| Pairs.RenamedKeepsPaired | src/tunnel.c:45-68 | And after a tunnel_update, which renames local ports only |
| Pairs.OfflineClears | src/gcapi.c:91-109 | No slot and no tunnel of the address is left; an empty address unpairs every slot |
| Pairs.StopAllKeepsPairedIff | src/tunnel.c:265-279 | Removing all tunnels alone leaves slots and tunnels in step exactly if no slot was paired |
| Pairs.ZeroPortPairs | src/tunnel.c:156-194 | The notice goes upstream, the slot that asked for any port learns the port the server got, and it gets the pid exactly when no slot before it has that very port |
| Pairs.NoticeReadIff | src/tunnel.c:159-167 | The peer reads the names of the notice as they were written exactly if they fit its 128 bytes |
| Pairs.NoticeUpdatesPeer | src/tunnel.c:45-68 | A peer that reads them renames the port of its first tunnel of that name and changes nothing else |
| Pairing.PidGoesToFirst | src/gcapi.c:177-193 | A reply changes the pid of a slot exactly if the slot has the reply's cloud, device and both ports as printed, and no slot before it has them |
| Pairing.PortThenPid | src/tunnel.c:179-194 | For any local port: the first slot of the reply's names takes the port the server got, the pair goes by that port from then on, and the pid goes to the first slot of these names |
| Pairing.ForcedPairsNothing | src/gcapi.c:172-175 | A forced pair changes no slot |
| Pairing.OverlongAborts | src/tunnel.c:213-223 | A reply that names its local port aborts the process exactly if one of the six texts of its pair is longer than 256 bytes |
| Pairing.PortIsZeroIff | src/tunnel.c:206-209 | However it is cut, a printed port reads as 0 exactly if it is 0 |
| Pairing.RequestIsAnswered | src/gcapi.c:212-240 | The request sent for an unpaired slot, granted with the names it carries, gives that slot the pid and no other, opens its tunnel, and is the one request that devices_pair then leaves out, where slots differ in their names and the local port is not 0 |
| PairTable.PairTable.PairsOffline | src/gcapi.c:91-109 | The loop marks the address's slots, or all |
| PairTable.PairTable.PortUpdate | src/tunnel.c:156-194 | The notice goes upstream, and the first slot with the pair's cloud, device and both printed ports takes the new port, as the pair does |
| PairTable.PairTable.GcTunnelAdd | src/tunnel.c:196-233 | A new node with the updated pair heads the list, unless there is no server or a text does not fit |
| PairTable.PairTable.DevicePairReply | src/gcapi.c:165-201 | A pair that names a local port gives its pid to the first slot with its cloud, device and both printed ports; without a server nothing changes and the process is to stop |
| PairTable.PairTable.AsyncServerShutdown | src/async_server.c:436-456 | While each call changes the table, the heads of all buckets are shut down once, with their notices in that order, and no other client |
| PairTable.PairTable.GcTunnelStop | src/tunnel.c:235-263 | Unlinking nodes while walking removes exactly the tunnels with the pid, each after its server's shutdown, and keeps the order of the others |
| PairTable.PairTable.GcTunnelStopAll | src/tunnel.c:265-279 | Every server is shut down in list order, and no tunnel is left |
| PairTable.PairTable.ClientError | src/async_server.c:41-87 | The notice goes to the peer, the client is gone, and ht_rem has its effect on the table of its server; without the server, freed memory is used |
| PairTable.PairTable.TunnelClientFind | src/tunnel.c:24-43 | The walk returns what the first tunnel of that port with an answer answers |
| PairTable.PairTable.GcTunnelUpdate | src/tunnel.c:45-68 | The first tunnel of that name takes the new local port in its node |
| Session.RunKeepsPhase | src/gcapi.c:126-158 | Over every run the connect timer is armed only while the client is inactive, the hang, ping and pair timers only while it is active, the write watcher of an active client runs exactly while something is queued, and the SSL client is shut down at most once per connect |
| Clocks.ArmedIff | src/gcapi.c:126-347 | After every run from gc_init, each of the five timers is armed exactly if an event armed it that arms it (loss of the upstream, handshake, message, login, the ways to end) and none has stopped it since |
| Clocks.StepArmedIff | src/gcapi.c:126-347 | The same of one event, with the events that arm and stop each timer |
| Session.UpstreamErrorClears | src/gcapi.c:136-158 | In every reachable state an upstream error ends with no tunnel, no endpoint, no pid, pair, ping and hang timers stopped, the connect timer armed, the client inactive and shut down once |
| Session.StrandedIff | src/gcapi.c:692-705 | Over every run, no connection, no connect timer and no watcher that could arm it is left exactly after a connect without a socket or whose connect() returned other than -1 with errno neither EINPROGRESS nor EINTR; after a stop() with SIGTERM, or one that told no tunnel's client and left no watcher on; or after SIGTERM with only that watcher on |
| Session.ImmediateConnectStrands | src/async_client.c:401-406 | connect() returning 0 with errno 0: whatever happens afterwards, the process never connects again |
| Session.RefusedConnectIsActive | src/async_client.c:401-406 | connect() returning -1 with ECONNREFUSED leaves the client active |
| SessionRuns.StopRearmsIff | src/gcapi.c:692-705 | In every tidy run, stop() arms the shutdown timer again exactly when clientterm is set and an endpoint, or a client in the table of some tunnel, is left |
| SessionRuns.StopStraysIff | src/gcapi.c:683-705 | In every tidy run, stop() uses freed memory exactly when it ran before, or when the upstream is active with something queued and some tunnel's table has a client |
| SessionRuns.StopTwiceStrays | src/gcapi.c:683-705 | In every tidy run in which stop() arms its timer again: whatever follows, as long as nothing else goes wrong the timer stays armed, and the stop() it brings frees the configuration a second time |
| SessionRuns.StopReconnectsIff | src/utils.c:23-30 | In every tidy run, some continuation after stop() connects again exactly when a tunnel's table had a client, nothing was queued, stop() had not run before and there was no SIGTERM |
| Stops.StopReconnects | src/async_client.c:154-161 | Connect, a pair reply, client 12, stop(): its notice starts the dead upstream's watcher, whose callback arms the connect timer |
| Stops.StopFreesTwice | src/gcapi.c:683-690 | The same with clientterm: stop() comes twice, and the second uses freed memory |
| Stops.StopStrays | src/ringbuffer.c:112-114 | The same with a request of the client queued: one stop() is enough |
| Stops.StopUnpairs | src/gcapi.c:692-705 | Without a client: the slot keeps its pid, and no tunnel is left |
| Session.StepKeepsPairedIff | src/gcapi.c:351-454 | Every event, those of tunnels' clients included, keeps slots and tunnels in step exactly unless it is stop() while a slot is paired |
| Session.AlwaysPairedIff | src/gcapi.c:91-201 | The same over every run of the process from gc_init |
| SessionRuns.EndpointsRefined | src/gcapi.c:351-454 | Every run of the process is, to the endpoints, a run of their own |
| SessionRuns.LocalsRefined | src/gcapi.c:351-454 | And to the tunnels and their clients, pair replies with late ports included, a run of theirs |
| SessionRuns.RunKeepsSound | src/gcapi.c:318-477 | In every run in which no request drops its client and descriptors fit their keys, all three invariants hold, and there are tunnels and endpoints only while the upstream is active |
| SessionRuns.TunnelStopReachesIff | src/async_server.c:436-456 | In such runs of the process, a tunnel's shutdown reaches its existing clients, each once, exactly as LocalRuns.ShutdownReachesLiveIff says |
| SessionRuns.ClientDataNeverAborts | src/endpoint.c:92-96 | And no data of an endpoint's client ends the process |
| SessionRuns.SessionIsolates | src/endpoint.c:186-243 | In a whole session, with addresses of one length: while an endpoint stays, its client is given what came from its descriptor at its address, in order, and nothing else |
| SessionRuns.SessionConnectionsApartIff | src/endpoint.c:186-269 | And no client is given payloads of two connections, exactly under the condition of Connections.ConnectionsApartIff on the events that reach the endpoints |
| SessionRuns.DenialAbortsPeer | src/endpoint.c:194-209 | A request for a port that is not allowed is answered with a message that aborts the process it is addressed to |
| Inbox.CutMessage | src/gcapi.c:38-60 | Cuts the header in the buffer and reads the tokens as C strings where argv points; with the other fields, read from the same buffer, this is the frame the specification names, or a stray read |
| Inbox.OthersUncut | src/gcapi.c:44-89 | Cutting the header leaves device, address and body as they were received |
| Inbox.LegibleHandled | src/gcapi.c:351-358 | A message with a header free of NUL and a body shorter than 2^24 bytes is parsed and cut into the handler's arguments its sender meant |
| Inbox.SentIsObeyed | src/gcapi.c:351-454 | End to end: after a drained run without crossing chunks, a process handed the delivered frames is in the state it would be in had it done what each message given to gc_packet_send means by its fields, in order |
| Messages.LoginHeard | src/gcapi.c:264-282 | From the bytes of a login reply, by its error alone: "ok" arms the pair timer, or with the traffic action queues one request; "ok_registered" does nothing; anything else ends the process |
| Messages.OfflineHeard | src/gcapi.c:111-124 | From the bytes of OFFLINE_SET, by its address alone: its slots lose their pid and its tunnels go, all others stay, and the newest endpoint of the address is stopped |
| Messages.PairReplyHeard | src/gcapi.c:373-412 | From the bytes of a pair reply, by its error alone: with "ok" its pairs are taken in order, otherwise nothing |
| Messages.AllAnswered | src/gcapi.c:165-240 | A reply that grants every request of devices_pair, in order, leaves every slot paired, those paired before as they were, and devices_pair with nothing to ask for |
| Messages.PeerHeard | src/gcapi.c:38-89 | From the bytes of MESSAGE_FROM: the first piece of the header chooses the handler, which gets the sender's device and address, the other pieces and the body; an unknown one aborts |
| Messages.OthersHeard | src/gcapi.c:418-453 | From the bytes of any other message: the hang timer is reset, the four replies to one-shot actions end the process, and nothing else happens |
| Messages.FreedLogin | src/gcapi.c:683-690 | In a process that connected again after stop(), a login reply reads the freed configuration exactly if it is "ok" |
| Messages.FreedOffline | src/gcapi.c:91-109 | And an offline notice, exactly if it is for a paired slot |
| Messages.FreedReply | src/tunnel.c:156-194 | And a pair of a reply, exactly if it has a server and takes any port, or there are slots to search |
| Messages.FreedAsks | src/gcapi.c:212-240 | And devices_pair, exactly if a slot is unpaired |
| Conversations.RequestSent | src/tunnel.c:96-127 | A client's bytes go out in one message to the tunnel's device and peer, whose header the peer reads as a request for the tunnel's remote port and the client's descriptor exactly up to 46 characters |
| Conversations.ResponseSent | src/endpoint.c:60-97 | A backend's bytes go out in one message to the endpoint's address, whose header reads as a response with its port and descriptor exactly up to 46 characters |
| Conversations.ResponseReachesIff | src/tunnel.c:70-94 | Over every run of the tunnels, a response under a client's port and descriptor is queued for the client exactly if its entry was not cleared with a sibling's and no earlier tunnel answers |
| Conversations.RequestReachesPeer | src/endpoint.c:186-243 | The message a client's bytes go out in, handed to a peer that allows the port and has no endpoint under the key, makes an endpoint of the tunnel's remote port under the caller's address, with these bytes queued |
| Conversations.ResponseReachesCaller | src/tunnel.c:70-94 | The message a backend's bytes go out in, handed to the caller after any tidy run, queues them for the client exactly if the way back is free |
| Conversations.ThereAndBack | src/tunnel.c:96-127 | Both in runs of two processes, from the bytes each really sends: the client's bytes reach a backend of the tunnel's remote port, and what that sends reaches the same client, exactly if the way back is free, whatever else happens meanwhile |
| Dialogue.TwelveTalks | src/tunnel.c:70-127 | From gc_init on both sides: a slot is paired, client 12 of its tunnel sends, the peer's backend at the slot's port has what it sent and answers, and the client has the answer and nothing else |
| Conversations.EndReachesPeer | src/async_server.c:20-39 | When a client hangs up, the message that goes out, handed to the peer, stops the newest endpoint of the caller's address |
| Conversations.PortReachesPeer | src/tunnel.c:156-194 | The notice of a new port, handed to the peer, renames the first tunnel that goes by the caller's four names, and no other, if its buffer holds them |
| Conversations.RenamedIs | src/tunnel.c:45-68 | tunnel_update renames the first tunnel of its four names, and no other |
| Conversations.LongNameAborts | src/tunnel.c:61-62 | A new port of more than 256 bytes for a tunnel that is there aborts the process |
| SessionClass.Gc.UpstreamError | src/gcapi.c:136-158 | On linked tunnels and endpoints: no node is left, every server's clients are shut down as their tables have them, and with clientterm the shutdown timer is armed if there were any |
| SessionClass.Gc.Stop | src/gcapi.c:683-705 | The configuration and the upstream first, then the tunnels, whose clients' notices go to its freed queue and start its watcher, then the endpoints; both lists end empty |
| SessionClass.Gc.CallbackData | src/gcapi.c:351-454 | gc_deserialize on the received buffer, the header cut in it, its tokens read from it: a buffer that does not parse changes nothing, one whose fields leave it strays, every other has the effect of its message |
| SessionClass.Gc.MessageFrom | src/gcapi.c:38-89 | From the buffer: the effect of the handler the first token names, on the tokens read there, or a stray read where a token has no end |
| SessionClass.Gc.Tell | src/gcapi.c:56-89 | Each token list has the effect of its handler on the linked lists, an unknown one that of abort() |
| SessionClass.Gc.DevicesPair | src/gcapi.c:212-240 | The loop returns the requests sent: one for each slot without a pid, in order, with the slot's cloud, device and ports as printed |
| SessionClass.Gc.Turn | src/gcapi.c:318-477 | One turn of the event loop, whatever socket, timer or signal it serves, is one step of the state machine |

## Left out

- Sockets, libev, OpenSSL, DNS and signals: events, byte counts and outcomes stand for them.
- Logging, gc_proto_dump, config dumps: no state of interest.
- JSON configuration and backend files, the ping selection of backends and the files under /tmp: they rest on json-c, popen and the file system.
- The modules (src/modules), the example client and the Alexa scripts.
- The list inside DEVICE_PAIR_REPLY (src/gcapi.c:398-408): its loop skips a byte per record and the encoder is not part of this model; the decoded pairs are the event.
- Failure of malloc and of hm_palloc.
- The bucket list of a class (src/pool.c:174-175) and hm_destroy_pool: only the latter walks it.
- Alignment and pointer casts in the pool: a block is a region, an offset and a length.
- HT_ALLOC copies, the memory of keys and entries, ht_free and ht_dump_index of src/hashtable.c.
- The client tables inside the nodes of the tunnel list: there a table is a value that methods replace; as linked chains it is HashTableClass.Ht, with Server.Server around it.
- Pointers from a client to its server and tunnel: the client carries its tunnel's number, and the walk to that number stands for the dereference; a number without a tunnel is a dangling pointer.
- Traffic.ParseTraffic: says of other lists that the loop leaves them, not what it reads there; with a length of -4 the C loop never advances.
- Proto.ParseEncoded: takes encodings whose length fits an `int`, as the C lengths must.
- Allocator.Allocator.Palloc: takes positive sizes only, and sizes whose rounding fits an `int`; for size 0 the C code asserts on the holder's missing node.
- Pool.SizeClass.GetNode: `used` of a node that was never handed out is whatever malloc left there, so hm_pfree is modelled on pointers that were handed out.
- LocalRuns.HeldIff: takes runs whose descriptors are below ten million; above, keys no longer name descriptors (LocalRuns.LongDescriptorStrays).
- LocalRuns.ShutdownReachesLiveIff: takes the same runs.
- LocalRuns.ResponseFindsIff: takes the same runs, and ports without '/' and NUL.
- SessionRuns.StopRearmsIff: takes tidy runs: no request drops its client, and descriptors are below ten million; in others the lists hold freed clients.
- SessionRuns.StopStraysIff: takes the same runs.
- SessionRuns.StopTwiceStrays: takes the same runs up to the first stop().
- SessionRuns.StopReconnectsIff: takes the same runs up to stop(), and any continuation.
- Connections.ConnectionsApartIff: takes runs in which no request drops its client (Endpoints.RunKeepsInvIff); which connection a request is from is a label, as only its sender knows.
- Responses.OwnInOrder: takes runs whose descriptors are below ten million, as do the other lemmas of Responses about runs.
- Upstream.UpstreamClient.AsyncRead: takes a reassembler that has not refused a frame; after a refusal the client is shut down (src/async_client.c:34-37) and reads no more.
- Session.StrandedIff: the traffic and account actions, whose replies end the process, are modelled by the shutdown timer they arm.
- The memory behind gc_endpoint_request's key and the pool argument missing from calls of gc_endpoints_stop_all (src/gcapi.c:152).
- What ping puts into its packet, and devices_pair's requests once they are queued: they count as buffers in the upstream's queue.
- What the application's own callbacks read of a freed configuration.
- The relay between two processes: Conversations takes its messages to reach the device they are for, with the address of their sender.
- Conversations.ThereAndBack: is about the first request of a connection, which makes the endpoint; further ones are Endpoints.PayloadsStayTogether. It takes tidy runs, ports without '/' and NUL, and names and bodies below 2^24 bytes.
- Conversations.EndReachesPeer: says of a client whose tunnel has its server; one whose tunnel is gone uses freed memory (LocalRuns.OrphanStrays).
- Pairing.RequestIsAnswered: takes slots with different names; of two alike the first gets every pid (Pairing.PidGoesToFirst).
- Messages.PeerHeard: takes headers free of NUL and bodies below 2^24 bytes, as Headers.ReceivedHeaderTokens shows they must be.
- Access.PrintedRefusedIff: takes ports of at most seven characters; of longer texts atoi reads the first seven (Access.RefusedIff).
- port_update with a port that the server was given: async_server fills it in for the text "0" only (src/async_server.c:412-416), and other texts that read as 0 leave it unset; the model takes it as filled in.
