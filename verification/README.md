# Verified model of tokimo-kvm

A guest uses a Rust filesystem that lives on the host. Inside the guest a FUSE
agent turns inode and handle operations into path operations; an RPC client puts
them on one byte stream; a host loop decodes them, calls the filesystem and frames
the answer. This project models that stack and the machinery around it in Dafny
and proves what each part keeps over whole runs.

| module | part of the system |
|---|---|
| `Prelude`, `Splitting`, `Utf8` | machine widths, splitting and joining, well-formed UTF-8 (section 4 of RFC 3629) |
| `VfsCore`, `Proto`, `Wire` | the filesystem interface, the messages, and their postcard encoding |
| `Frame`, `Server` | length-prefixed frames over a fragmenting stream, and the host's serving loop |
| `RpcSystem`, `RpcLimits`, `Client` | many callers on one locked stream as a step system, what happens past the frame limit, and the typed operations |
| `Paths`, `FileBytes`, `MemoryVfs`, `HostFs`, `MemoryServer` | paths by component, file contents, the two filesystems, and which answers of the in-memory one come back |
| `Agent`, `Calls`, `TokimoFuse`, `EndToEnd`, `Directory`, `Replies` | the agent's tables and handlers, and what the kernel can rely on through the whole stack |
| `Cmdline`, `Sandbox` | the kernel command line both ways, the sandbox's life, and mount routing |
| `Session`, `Objects` | the agent over the shared stream, and the results about runs said of the agent and filesystem objects |
| `VmLoop`, `Repl` | the macOS command loop and the terminal escape filter |

The pieces meet in four places. `RpcSystem.RefinesDirectCalls` reduces the shared
stream to direct calls, and `RpcLimits` says for how long. `Client.ViaRpc` is the
filesystem the guest then sees: direct calls, and a failure for a call beyond the
frame limit. `EndToEnd` and `Replies` run the agent on `ViaRpc` of the in-memory
filesystem; what they say of an operation supposes that every earlier call kept to
the limit, which `EndToEnd.KernelRun` demands of whole runs. `Session.AgentOverStream`
and `Objects.SessionOverStream` compose the two: the same replies, and the same
filesystem, in every run of the stream that carries the agent's calls.
`Sandbox.EachMountReachesItsFilesystem` composes the start loop, the printed
command line and the init script.

Where the code and its comments differ, the model follows the code:

- packages/tokimo-packages-vm-linux/src/lib.rs:111-112 says the script must come
  last; lines 217-221 append the shell option after it. `Cmdline.ScriptRoundTripIff`
  says what the guest then sees.
- packages/tokimo-packages-vm-linux/src/lib.rs:87 describes mounts as
  `kind:tag:path`; lines 104-109 print `tag:path`.
- `HostFs::write` opens with truncation, so it is not the positional write the
  interface suggests: `HostFs.WriteIsPositionalIff`.
- `write_frame` allows payloads of any 32-bit length and `read_frame` at most
  64 MiB. `RpcLimits.OutcomesDirectIff` shows that callers get the outcomes of
  direct calls exactly while every request and answer keeps to the smaller limit.
  A request over 64 MiB stops the server, as does an answer of 4 GiB or more
  (`RpcLimits.FirstMisfit`); an answer in between leaves its bytes on the stream,
  and `RpcLimits.WrongAnswer` is a run in which the next caller takes a piece of
  it for the contents of a file that does not exist.

Assumptions: the wire library encodes as the postcard wire format specifies, and
its stream helpers retry partial reads and writes; a hash table's iteration meets
every key once, in an order that may change at every call; a write to a stream whose
server has gone fails; the command line reaches the guest verbatim, with a line end
after it; the words of the command line hold no pathname patterns; the kernel names
directory entries by single plain components and uses inode numbers it was given.

## Model

| member | source | states |
|---|---|---|
| `Utf8.ValidUtf8Iff` | packages/tokimo-packages-vm-rpc/src/frame.rs:11-11 | a byte string is well-formed exactly when it is the encoding of some sequence of Unicode scalar values (section 3 of RFC 3629), surrogates and values over 0x10FFFF excluded |
| `Utf8.TextInjective` | packages/tokimo-packages-vm-rpc/src/frame.rs:11-11 | no two texts have the same bytes |
| `Wire.VarintRoundTrip` | packages/tokimo-packages-vm-rpc/src/frame.rs:10-10 | every integer within a varint's byte budget decodes to itself in front of any bytes |
| `Wire.RequestRoundTrip` | packages/tokimo-packages-vm-rpc/src/proto.rs:10-52 | every request whose paths are UTF-8 decodes to itself and leaves exactly the bytes after it |
| `Wire.ResponseRoundTrip` | packages/tokimo-packages-vm-rpc/src/proto.rs:54-67 | every response decodes to itself, nested results, listings and zigzag times included |
| `Wire.RequestsPrefixFree` | packages/tokimo-packages-vm-rpc/src/proto.rs:10-52 | two encoded requests followed by anything can only coincide if they are the same request: no encoding is a prefix of another |
| `Wire.ResponsesPrefixFree` | packages/tokimo-packages-vm-rpc/src/proto.rs:54-67 | the same for responses |
| `Wire.VarintDigits` | packages/tokimo-packages-vm-rpc/src/frame.rs:11-11 | byte i of an integer carries its bits 7i to 7i+6; all bytes but the last are marked; no trailing zero byte |
| `Wire.ZigZagInterleaves` | packages/tokimo-packages-vm-core/src/lib.rs:31-33 | a signed n that is not negative is sent as 2n and -1-n as 2n+1 |
| `Wire.KindsInOrder` | packages/tokimo-packages-vm-rpc/src/proto.rs:10-52 | the first byte of a request is the position of its kind in the enum |
| `Wire.AnswerKindsInOrder` | packages/tokimo-packages-vm-rpc/src/proto.rs:54-67 | the same for answers |
| `Wire.RequestBytes` | packages/tokimo-packages-vm-rpc/src/proto.rs:10-52 | some requests byte by byte, which fixes the order of their fields |
| `Wire.WriteRequestBytes` | packages/tokimo-packages-vm-rpc/src/proto.rs:25-33 | the same for write and create |
| `Wire.MoreRequestBytes` | packages/tokimo-packages-vm-rpc/src/proto.rs:44-51 | the same for rename and truncate |
| `Wire.AttrBytes` | packages/tokimo-packages-vm-core/src/lib.rs:26-34 | attributes byte by byte, in the order of the fields |
| `Wire.ResultBytes` | packages/tokimo-packages-vm-core/src/lib.rs:42-56 | success and failure, and each error, by its position |
| `Wire.EntryBytes` | packages/tokimo-packages-vm-core/src/lib.rs:36-40 | an entry is its name's length, its name and its kind's position; an I/O error carries its text |
| `Wire.MarkedIsRead` | packages/tokimo-packages-vm-rpc/src/frame.rs:32-32 | any bytes ended by the first without a mark are read as the number they weigh, shortest or not, unless there are too many or the last allowed one is too large |
| `Wire.UnendedIsBad` | packages/tokimo-packages-vm-rpc/src/frame.rs:32-32 | bytes that are all marked are refused |
| `Wire.UnknownKindsAreBad` | packages/tokimo-packages-vm-rpc/src/frame.rs:32-32 | positions beyond the last kind of a message, error, file kind or result are refused |
| `Wire.CutOrGarbledIsBad` | packages/tokimo-packages-vm-rpc/src/frame.rs:32-32 | a length beyond what is left is refused, and so is a name that is not text |
| `Frame.OpenSealed` | packages/tokimo-packages-vm-rpc/src/frame.rs:6-33 | a written frame is read back exactly if it is at most 64 MiB; otherwise it is refused and its whole payload is what the next read starts on |
| `Frame.OpenPartial` | packages/tokimo-packages-vm-rpc/src/frame.rs:19-33 | no strict prefix of a frame within the limit is taken for a frame |
| `Frame.FrameBytes` | packages/tokimo-packages-vm-rpc/src/frame.rs:12-14 | a frame's first four bytes spell the payload's length, highest byte first, and the rest is the payload |
| `Frame.Duplex.ReadExact` | packages/tokimo-packages-vm-rpc/src/frame.rs:24-31 | however the stream is cut into reads, the buffer gets the next bytes in order, or the stream is drained and the read fails |
| `Frame.Duplex.WriteFrame` | packages/tokimo-packages-vm-rpc/src/frame.rs:6-17 | a message too long for its header sends nothing; any other is sent whole |
| `Frame.Duplex.ReadFrame` | packages/tokimo-packages-vm-rpc/src/frame.rs:19-33 | the outcome and the bytes left depend only on the byte sequence, not on how it arrives |
| `Server.ServeStream` | packages/tokimo-packages-vm-rpc/src/server.rs:14-33 | the loop ends on every finite input and its calls, final state and output are those of `Serve` on the whole input |
| `Server.ServeCallsEachFrame` | packages/tokimo-packages-vm-rpc/src/server.rs:14-33 | for frames carrying requests followed by bytes that are not a frame: exactly those requests are called, in order, and exactly their answers are written |
| `Server.EveryInputSplits` | packages/tokimo-packages-vm-rpc/src/server.rs:19-26 | every byte string is such a run of frames followed by bytes that are not a frame, so the previous result covers all inputs |
| `Server.ServeStopsAtOversizeAnswer` | packages/tokimo-packages-vm-rpc/src/server.rs:27-31 | an answer too long to frame ends the connection after its call: nothing is written for it and no later request is called |
| `Server.EncodableIff` | packages/tokimo-packages-vm-rpc/src/frame.rs:11-12 | a request can be framed exactly when each of its paths is the encoding of some text, in whatever script, and it is shorter than 2^32 bytes |
| `RpcSystem.ServerStepIsServe` | packages/tokimo-packages-vm-rpc/src/server.rs:19-31 | the server party of the step system does with a frame what the serving loop does: the same call, state and answer, and the same stop on a malformed request or an answer without a frame |
| `RpcSystem.StepKeepsInv` | packages/tokimo-packages-vm-rpc/src/client.rs:70-76 | every atomic step of any party, with bytes moving in pieces of any size, keeps the call ledger and the account of the bytes in flight |
| `RpcSystem.RefinesDirectCalls` | packages/tokimo-packages-vm-rpc/src/client.rs:70-76 | over every run of any number of callers: the filesystem saw exactly the sendable requests in lock order, at most one call is in progress, and each finished caller has the outcome of its own direct call; a call that failed to encode had no effect |
| `RpcSystem.RunsGrow` | packages/tokimo-packages-vm-rpc/src/client.rs:70-76 | from any point of a run on, the lock order is only appended to, no call disappears, and a finished call keeps its outcome |
| `RpcSystem.LockOrderIsLinearization` | packages/tokimo-packages-vm-rpc/src/client.rs:70-76 | a call that returned before another was made comes before it in that order |
| `RpcSystem.StepsApproachCompletion` | packages/tokimo-packages-vm-rpc/src/client.rs:70-76 | within the frame limit and apart from new calls arriving, every step gets closer to completion, so no run goes on for ever |
| `RpcSystem.NeverStuck` | packages/tokimo-packages-vm-rpc/src/client.rs:70-76 | within the frame limit, while any call is unfinished some party can move, even if the transport holds a single byte each way: a writer that finds it full has a reader that still wants bytes, so neither the lock nor the two half-duplex streams can deadlock |
| `RpcSystem.StuckOnlyWhenDone` | packages/tokimo-packages-vm-rpc/src/client.rs:70-76 | over every run within the frame limit and every positive transport capacity: when nothing but a new call can happen, every call has finished |
| `RpcSystem.EveryCallCompletes` | packages/tokimo-packages-vm-rpc/src/client.rs:70-76 | from any reachable point, for every positive transport capacity and any order of the waiting calls in which they keep to the limit, those calls can all be finished, in that order |
| `RpcSystem.GoneServerBlocksNobody` | packages/tokimo-packages-vm-rpc/src/client.rs:70-76 | once the server has stopped, whatever it left on the stream, the call in progress can always go on by itself |
| `RpcLimits.OutcomesDirectIff` | packages/tokimo-packages-vm-rpc/src/frame.rs:24-29 | over every run whose logged calls are over: every caller holds the outcome of its own direct call if and only if every sendable request and its answer were at most 64 MiB |
| `RpcLimits.FirstMisfit` | packages/tokimo-packages-vm-rpc/src/server.rs:19-31 | in any run the first call beyond the limit, unless still in progress, has failed, and all earlier ones hold the outcomes of direct calls; if its request is over 64 MiB, or its answer cannot be framed at all, the server has stopped by then |
| `RpcLimits.StoppedForGood` | packages/tokimo-packages-vm-rpc/src/server.rs:19-31 | once the server has stopped, no later step of anyone reaches the filesystem |
| `RpcLimits.RefusedAnswerDesynchronizes` | packages/tokimo-packages-vm-rpc/src/frame.rs:27-29 | at whatever point of a run it happens, a client that refuses an answer over 64 MiB gives up the lock with the whole payload still to arrive |
| `RpcLimits.RefusedAnswerStays` | packages/tokimo-packages-vm-rpc/src/frame.rs:27-29 | from the start, any call with such an answer has a run that ends with the caller failed, the lock free and exactly the payload on the stream |
| `RpcLimits.NextCallerIsMisled` | packages/tokimo-packages-vm-rpc/src/client.rs:70-76 | if that payload starts like a frame, the next caller, whatever it asked, is given what that frame says |
| `RpcLimits.WrongAnswer` | packages/tokimo-packages-vm-rpc/src/client.rs:70-76 | a concrete run: after a refused listing, the read of a missing file returns a byte of the listing, where the direct call says it is not found |
| `Client.CallersSeeTheFilesystem` | packages/tokimo-packages-vm-rpc/src/client.rs:97-224 | over every run of the shared stream, each finished caller's typed operation took the filesystem from the state the earlier calls left to the next one, with its own answer |
| `Client.DeliveredIsDirect` | packages/tokimo-packages-vm-rpc/src/client.rs:70-76 | what the client presents is the direct call exactly for a call within the limit |
| `Client.QueriesViaRpc` | packages/tokimo-packages-vm-rpc/src/client.rs:97-134 | while the stream is in step `stat`, `list` and `read` return what the filesystem returned, or an I/O error when the request cannot be encoded or it or the answer is over 64 MiB; the wrong-kind arm is never taken |
| `Client.EditsViaRpc` | packages/tokimo-packages-vm-rpc/src/client.rs:135-224 | the same for `write` and `truncate`: a request that cannot be sent has no effect, while one whose answer is lost has had its effect |
| `Client.MakesViaRpc` | packages/tokimo-packages-vm-rpc/src/client.rs:149-174 | the same for `create` and `mkdir` |
| `Client.MovesViaRpc` | packages/tokimo-packages-vm-rpc/src/client.rs:175-211 | the same for `remove`, `rmdir` and `rename` |
| `Client.HandshakeAgrees` | packages/tokimo-packages-vm-rpc/src/client.rs:78-91 | a client and a server of this version agree in the opening exchange |
| `Client.HandshakeIff` | packages/tokimo-packages-vm-rpc/src/client.rs:78-91 | the opening exchange passes exactly on version 1; any other version is a mismatch that names it, any other answer unexpected |
| `Client.WrongKindIsBad` | packages/tokimo-packages-vm-rpc/src/client.rs:97-224 | an answer of another kind, as a stream out of step may bring, is the error "bad resp" in every operation |
| `Paths.PushAddsComponent` | packages/tokimo-packages-vm-agent/src/imp.rs:224-228 | joining a plain name onto an absolute path adds one component; parent and file name undo it |
| `Paths.RedundantParts` | examples/vfs_memory_demo.rs:26-28 | doubled slashes, single dots and a slash at the end make no difference to which path it is |
| `Paths.LeadingDotCounts` | examples/vfs_memory_demo.rs:26-28 | except that a dot at the front of a relative path is a component |
| `Paths.FileNameIs` | examples/vfs_memory_demo.rs:83-90 | the last component is the file name unless it is ".." |
| `FileBytes.LatestWriteWins` | examples/vfs_memory_demo.rs:120-134 | after any writes and truncates each byte is the one the latest covering write put there if no later truncate cut it off, and zero otherwise; the length is the matching fold |
| `FileBytes.ContentByOrigin` | examples/vfs_memory_demo.rs:171-181 | the same, by the edit each byte comes from |
| `MemoryVfs.MemoryFs.constructor` | examples/vfs_memory_demo.rs:31-41 | the initial tree |
| `MemoryVfs.MemoryFs.Stat` | examples/vfs_memory_demo.rs:71-74 | looks the path up by its components |
| `MemoryVfs.MemoryFs.List` | examples/vfs_memory_demo.rs:75-103 | the listing is the children met in some order of the whole table; each error case |
| `MemoryVfs.MemoryFs.Read` | examples/vfs_memory_demo.rs:104-119 | the slice from the offset, clipped to the length; each error case |
| `MemoryVfs.MemoryFs.Write` | examples/vfs_memory_demo.rs:120-134 | grows with zeros and overwrites in place, leaving every other path alone; each error case |
| `MemoryVfs.MemoryFs.Create` | examples/vfs_memory_demo.rs:135-142 | adds an empty file unless the path exists; no parent is required |
| `MemoryVfs.MemoryFs.Mkdir` | examples/vfs_memory_demo.rs:143-150 | adds a directory unless the path exists |
| `MemoryVfs.MemoryFs.Remove` | examples/vfs_memory_demo.rs:151-164 | forgets the path, whatever was there and whatever is below it |
| `MemoryVfs.MemoryFs.Rename` | examples/vfs_memory_demo.rs:165-170 | moves one node, replacing the target and leaving descendants behind |
| `MemoryVfs.MemoryFs.Truncate` | examples/vfs_memory_demo.rs:171-181 | cuts or extends with zeros; each error case |
| `MemoryVfs.ListingAgreesWithLookup` | examples/vfs_memory_demo.rs:75-103 | every listed name is found at once with the same kind; every stored path directly below is listed; no two entries share a name |
| `MemoryVfs.IsChildIff` | examples/vfs_memory_demo.rs:80-83 | the paths a listing shows are exactly those one component longer than the directory's |
| `MemoryServer.ComesIff` | packages/tokimo-packages-vm-rpc/src/frame.rs:24-32 | an answer of the in-memory filesystem comes back exactly when the request and it are within the limit; only listings and file contents can be too long |
| `HostFs.HostDir.Read` | packages/tokimo-packages-vm-core/src/lib.rs:207-225 | under every schedule of short reads the bytes are those the in-memory filesystem reads from the same content; each error case, a regular file on the way being told from a missing path |
| `HostFs.HostDir.FillBuffer` | packages/tokimo-packages-vm-core/src/lib.rs:214-224 | the fill loop ends with exactly the slice of the file, clipped to the length asked for |
| `HostFs.HostDir.Write` | packages/tokimo-packages-vm-core/src/lib.rs:226-242 | nothing on a read-only mount; otherwise the file is emptied, then holds zeros up to the offset and the data, however the write is cut; an offset beyond the signed range empties it and fails |
| `HostFs.HostDir.WriteAll` | packages/tokimo-packages-vm-core/src/lib.rs:240-240 | writing piece by piece from an emptied file is one write |
| `HostFs.HostDir.Create` | packages/tokimo-packages-vm-core/src/lib.rs:243-251 | nothing on a read-only mount; otherwise creates or empties the file; each error case |
| `HostFs.HostDir.Truncate` | packages/tokimo-packages-vm-core/src/lib.rs:277-286 | sets the length of an existing file; each error case |
| `HostFs.WalkOnTree` | packages/tokimo-packages-vm-core/src/lib.rs:165-172 | on a disk that is a tree, opening finds exactly what is stored, and otherwise the error is the unmapped one exactly when a regular file is in the way |
| `HostFs.WritingKeepsTree` | packages/tokimo-packages-vm-core/src/lib.rs:226-251 | creating or rewriting a file keeps the disk a tree |
| `HostFs.OpenForWriteIff` | packages/tokimo-packages-vm-core/src/lib.rs:180-186 | opening for writing is refused on every read-only mount; otherwise, on a tree, it succeeds exactly for a stored file or a missing one in a stored directory, and else the error tells a missing path from anything in the way |
| `HostFs.WriteIsPositionalIff` | packages/tokimo-packages-vm-core/src/lib.rs:226-242 | a write is the positional write of the interface exactly when the old bytes before the offset are zero and none lie beyond the data's end (for no data: when there was nothing and the offset is zero) |
| `HostFs.OnlyLastWriteSurvives` | packages/tokimo-packages-vm-core/src/lib.rs:230-234 | of any sequence of writes to one file only the last leaves a trace |
| `HostFs.TwoChunkCopyFails` | packages/tokimo-packages-vm-core/src/lib.rs:230-234 | a file written in two chunks comes out with the first zeroed, unlike positional writes |
| `Agent.InternOk` | packages/tokimo-packages-vm-agent/src/imp.rs:165-177 | interning keeps the two tables mutual inverses, binds the path, and changes no earlier binding; interning again returns the same number |
| `Agent.InternInvertsPathFor` | packages/tokimo-packages-vm-agent/src/imp.rs:157-177 | the path of a number interns to that number |
| `Agent.FillOk` | packages/tokimo-packages-vm-agent/src/imp.rs:361-379 | a directory reply keeps the tables consistent and only extends them |
| `Agent.StepKeepsTables` | packages/tokimo-packages-vm-agent/src/imp.rs:230-573 | every kernel operation, whatever the filesystem answers, keeps the tables consistent; bindings are permanent and handle numbers are never reused |
| `Agent.RunKeepsTables` | packages/tokimo-packages-vm-agent/src/imp.rs:140-184 | so over every run, from any consistent tables |
| `Agent.EveryRunKeepsTables` | packages/tokimo-packages-vm-agent/src/imp.rs:122-184 | from the empty tables, over every run on any filesystem: inode numbers are exactly 2 up to the next one, no path has two, the root is never stored, live handles are below the next one, and every binding of an earlier point still holds |
| `Agent.RefusalIsReported` | packages/tokimo-packages-vm-agent/src/imp.rs:213-222 | on any filesystem, an operation whose call fails changes no table and gives the kernel the Linux number of the error: 2, 5, 13, 17, 20 or 21 |
| `Agent.UnknownIsReported` | packages/tokimo-packages-vm-agent/src/imp.rs:157-163 | a number never given out is error 2, a handle not open error 9, and nothing is called or changed; number one is "/" |
| `TokimoFuse.Fuse.constructor` | packages/tokimo-packages-vm-agent/src/imp.rs:122-130 | the tables at start |
| `TokimoFuse.Fuse.InternPath` | packages/tokimo-packages-vm-agent/src/imp.rs:165-177 | the method is the interning function on its tables |
| `TokimoFuse.Fuse.Alloc` | packages/tokimo-packages-vm-agent/src/imp.rs:179-184 | the method is handle allocation on its tables |
| `TokimoFuse.Fuse.OnLookup` | packages/tokimo-packages-vm-agent/src/imp.rs:231-248 | new tables, filesystem state and reply of a lookup |
| `TokimoFuse.Fuse.OnGetAttr` | packages/tokimo-packages-vm-agent/src/imp.rs:250-264 | new state and reply of getattr |
| `TokimoFuse.Fuse.OnSetAttr` | packages/tokimo-packages-vm-agent/src/imp.rs:266-307 | new state and reply of setattr: truncate first, then stat |
| `TokimoFuse.Fuse.OnOpen` | packages/tokimo-packages-vm-agent/src/imp.rs:383-390 | new state and reply of open and opendir |
| `TokimoFuse.Fuse.OnRelease` | packages/tokimo-packages-vm-agent/src/imp.rs:392-404 | new state and reply of release and releasedir |
| `TokimoFuse.Fuse.FillPage` | packages/tokimo-packages-vm-agent/src/imp.rs:361-379 | the loop that interns and adds entries is `Fill` |
| `TokimoFuse.Fuse.OnReadDir` | packages/tokimo-packages-vm-agent/src/imp.rs:330-381 | new state and reply of readdir |
| `TokimoFuse.Fuse.OnRead` | packages/tokimo-packages-vm-agent/src/imp.rs:406-429 | new state and reply of read through a handle |
| `TokimoFuse.Fuse.OnWrite` | packages/tokimo-packages-vm-agent/src/imp.rs:431-456 | new state and reply of write through a handle |
| `TokimoFuse.Fuse.OnCreate` | packages/tokimo-packages-vm-agent/src/imp.rs:458-487 | new state and reply of create |
| `TokimoFuse.Fuse.OnMkdir` | packages/tokimo-packages-vm-agent/src/imp.rs:489-516 | new state and reply of mkdir |
| `TokimoFuse.Fuse.OnUnlink` | packages/tokimo-packages-vm-agent/src/imp.rs:518-529 | new state and reply of unlink |
| `TokimoFuse.Fuse.OnRmdir` | packages/tokimo-packages-vm-agent/src/imp.rs:531-542 | new state and reply of rmdir |
| `TokimoFuse.Fuse.OnRename` | packages/tokimo-packages-vm-agent/src/imp.rs:544-572 | new state and reply of rename, which touches no table |
| `TokimoFuse.Fuse.Answer` | packages/tokimo-packages-vm-agent/src/imp.rs:230-573 | the handler a request is delivered to does that request's step |
| `TokimoFuse.Fuse.Serve` | packages/tokimo-packages-vm-agent/src/imp.rs:230-573 | over any session the object ends in the state of the run the other modules reason about, and its replies are those of that run |
| `Objects.HandlesAreNumbered` | packages/tokimo-packages-vm-agent/src/imp.rs:179-184 | over every run on any filesystem, handles are numbered from one in the order in which they are given out |
| `EndToEnd.StepRight` | packages/tokimo-packages-vm-agent/src/imp.rs:230-573 | an observer of requests and replies alone stays right about inode names, handles and every file's history, at every operation |
| `EndToEnd.ReadRight` | packages/tokimo-packages-vm-agent/src/imp.rs:406-429 | a read within the frame limit through a handle returns the slice of the history of the path it was opened with, after any rename, unlink or re-creation; or EBADF, ENOENT, EISDIR as the observer predicts; one beyond the limit is EIO |
| `EndToEnd.ReadsReturnHistory` | packages/tokimo-packages-vm-agent/src/imp.rs:406-487 | the same after every run of kernel operations within the frame limit from the initial in-memory filesystem, through agent and client |
| `Calls.StepAlike` | packages/tokimo-packages-vm-agent/src/imp.rs:230-573 | an operation makes exactly the calls listed for it, and its reply and the new tables depend on nothing but their outcomes, however the calls are made |
| `Replies.SteadyNumber` | packages/tokimo-packages-vm-agent/src/imp.rs:165-177 | the number a path is given is the one the kernel already knows it by, or one the kernel knows no other path by |
| `Replies.StepAnswered` | packages/tokimo-packages-vm-agent/src/imp.rs:230-573 | every reply of every operation is the one the observer's paths and histories dictate: results, numbers, fresh handles and each error number, attributes with sizes, kinds and modes; a page of a listing holds the dots first, then known children, no name or number twice, and is empty only past the last child or for want of room; or EIO when the call cannot be encoded or is beyond the frame limit |
| `Replies.EveryReplyExpected` | packages/tokimo-packages-vm-agent/src/imp.rs:230-573 | so after every run of kernel operations within the frame limit, through agent, client and in-memory filesystem, whatever the kernel asks next is answered as that history dictates |
| `Replies.TimesAreOfTheCall` | examples/vfs_memory_demo.rs:45-69 | all three times of any attribute the kernel is given are the clock of the call that fetched it |
| `Replies.FolderDeliveredIff` | packages/tokimo-packages-vm-agent/src/imp.rs:330-381 | through agent and client, a folder of the in-memory filesystem that nobody changes, read with any buffers that each have room for any one entry, is delivered as the dots and then exactly the children the observer knows, each once, with its kind and a number it keeps, if and only if its listing keeps to the frame limit |
| `Objects.ServeKernel` | packages/tokimo-packages-vm-agent/src/imp.rs:230-573 | the agent object over the in-memory filesystem: each reply of a whole session, up to and with the first operation beyond the frame limit, is the one dictated by the requests and replies before it |
| `Session.AgentOverStream` | packages/tokimo-packages-vm-rpc/src/client.rs:70-76 | on any filesystem, in any run of the shared stream with any callers and cutting: an agent each of whose calls is the run's next one gives the replies it would give on the filesystem itself, also to a last operation beyond the limit; while all keep to it the run's calls and the host's filesystem are those of the session |
| `Session.CarriesIff` | packages/tokimo-packages-vm-rpc/src/client.rs:70-76 | the run's calls are the agent's, one by one, exactly when the logged requests are those the agent makes on the filesystem itself |
| `Session.SessionHasRun` | packages/tokimo-packages-vm-rpc/src/client.rs:70-76 | for every session within the limit and every positive capacity there is such a run |
| `Session.OffsetsNeverOverflow` | packages/tokimo-packages-vm-agent/src/imp.rs:406-456 | over every session on any filesystem, every read the agent asks for, and every write that can be encoded, ends within 64 bits |
| `Objects.SessionOverStream` | packages/tokimo-packages-vm-agent/src/imp.rs:230-573 | end to end over the bytes: in any run of the stream over the in-memory filesystem that carries the agent's calls, every reply to the kernel is the one the observer expects, and the host's table is the one the session leaves |
| `Objects.SessionIsCarried` | packages/tokimo-packages-vm-agent/src/imp.rs:230-573 | every kernel run within the limit has such a run of the stream |
| `Objects.HandleOn` | packages/tokimo-packages-vm-rpc/src/server.rs:36-54 | one request on the filesystem object: its answer and new table, each listing in some order of all the keys |
| `Objects.ValueDoesSame` | packages/tokimo-packages-vm-rpc/src/server.rs:36-54 | the filesystem value the run theorems are about gives the same answer and table |
| `Objects.HandleAll` | packages/tokimo-packages-vm-rpc/src/server.rs:36-54 | any sequence of requests on the filesystem object is answered as by that value, for the times and key orders met |
| `Objects.WriteBoth` | packages/tokimo-packages-vm-core/src/lib.rs:226-242 | the same write on a host directory and an in-memory filesystem with the same files leaves them the same exactly when truncating loses nothing |
| `Objects.WriteEach` | packages/tokimo-packages-vm-core/src/lib.rs:226-242 | a file of the host directory written piece after piece ends up as its last piece alone |
| `Directory.FillIsConsecutive` | packages/tokimo-packages-vm-agent/src/imp.rs:361-379 | a page is a run of consecutive entries with the right resume offsets, not empty if the first entry fits |
| `Directory.FillNumbersEntries` | packages/tokimo-packages-vm-agent/src/imp.rs:369-375 | each delivered entry carries the inode number the tables hold for its path |
| `Directory.EntryPadding` | packages/tokimo-packages-vm-agent/src/imp.rs:376-378 | an entry takes 24 bytes and its name, padded to eight |
| `Directory.FillPacks` | packages/tokimo-packages-vm-agent/src/imp.rs:361-379 | a page never exceeds the buffer and ends only where the next entry would |
| `Directory.FillMeetsNext` | packages/tokimo-packages-vm-agent/src/imp.rs:361-379 | the child at which a page ends has been given its number already |
| `Directory.PagingDeliversEachOnce` | packages/tokimo-packages-vm-agent/src/imp.rs:330-381 | on any filesystem, if the listing is the same each time it is asked for along the way: for any buffer sizes with room for one entry, resuming from the last offset delivers `.`, `..` and every child exactly once, in order, with stable inode numbers, and finishes |
| `Directory.ListedNameLooksUp` | packages/tokimo-packages-vm-agent/src/imp.rs:231-248 | on the in-memory filesystem a name just listed looks up with the same inode number and kind |
| `Cmdline.BuildCmdline` | packages/tokimo-packages-vm-linux/src/lib.rs:89-118 | the printed line |
| `Cmdline.PartitionKeepsEverything` | packages/tokimo-packages-vm-linux/src/lib.rs:113-116 | moving scripts last keeps every extra argument |
| `Cmdline.ScanWords` | scripts/image/build.sh:142-148 | the last mounts word wins; the shell option is seen wherever it is |
| `Cmdline.ScanPairs` | scripts/image/build.sh:154-157 | each comma field gives one tag and path |
| `Cmdline.ParseCmdline` | scripts/image/build.sh:141-158 | the init script's reading of the command line |
| `Cmdline.BootedWords` | packages/tokimo-packages-vm-linux/src/lib.rs:100-117 | the words the guest sees are those of the parts, in order |
| `Cmdline.GuestWords` | packages/tokimo-packages-vm-linux/src/lib.rs:89-118 | for clean mounts the whole line, word by word |
| `Cmdline.RootOptionsIff` | packages/tokimo-packages-vm-linux/src/lib.rs:96-100 | the guest is told of a root device, its type and that it is read-only exactly when the image has a root filesystem; the four console words always come first |
| `Cmdline.KeyWords` | scripts/image/build.sh:143-149 | which words the init script acts on |
| `Cmdline.PairsAt` | packages/tokimo-packages-vm-linux/src/lib.rs:104-108 | each mount is printed as tag, colon, path |
| `Cmdline.LastMountsWins` | scripts/image/build.sh:143-146 | of several mounts words only the last counts |
| `Cmdline.PairIsCut` | scripts/image/build.sh:155-157 | a pair is cut at its first two colons, and a missing path is empty |
| `Cmdline.CommasEndFields` | scripts/image/build.sh:153-154 | a comma ends a field: none follows one at the end, and two make an empty one |
| `Cmdline.MountsRoundTripIff` | packages/tokimo-packages-vm-linux/src/lib.rs:101-110 | with no reserved word in the extra arguments: the guest gets the mounts back in order exactly when no tag or path holds a blank, comma or colon, and then also the shell option right, appended last or not |
| `Cmdline.ScriptRoundTripIff` | packages/tokimo-packages-vm-linux/src/lib.rs:111-117 | when no other part breaks the line: the last script argument is recovered with just the appended option behind it exactly when it holds neither the key nor a line break, and recovered unchanged exactly when it also was not interactive |
| `Cmdline.KeyLinesAreSeen` | scripts/image/build.sh:149-149 | of several lines exactly those holding the key are seen, each from the key's last occurrence |
| `Cmdline.BlankBreaksKey` | packages/tokimo-packages-vm-linux/src/lib.rs:217-221 | the appended shell option neither completes nor hides an occurrence of the script key |
| `Cmdline.KeyDoesNotOverlap` | scripts/image/build.sh:149-149 | the greedy match cannot begin inside the key itself |
| `Sandbox.QemuSandbox.constructor` | packages/tokimo-packages-vm-linux/src/lib.rs:53-65 | a new sandbox |
| `Sandbox.QemuSandbox.BindMounts` | packages/tokimo-packages-vm-linux/src/lib.rs:159-210 | servers, ports and command line entries are made aligned; a bind that fails leaves exactly the earlier ones bound and tracked |
| `Sandbox.QemuSandbox.Launch` | packages/tokimo-packages-vm-linux/src/lib.rs:212-259 | the printed line, the process and the control connection, with each failure |
| `Sandbox.QemuSandbox.DoStart` | packages/tokimo-packages-vm-linux/src/lib.rs:132-259 | the whole of start, with a failure at any point |
| `Sandbox.QemuSandbox.DoStop` | packages/tokimo-packages-vm-linux/src/lib.rs:261-289 | stopping from running or starting removes every server; otherwise nothing happens |
| `Sandbox.QemuSandbox.DoWait` | packages/tokimo-packages-vm-linux/src/lib.rs:300-306 | waiting marks a started process's sandbox stopped and leaves the servers |
| `Sandbox.QemuSandbox.DoDrop` | packages/tokimo-packages-vm-linux/src/lib.rs:319-328 | dropping removes every server in any state |
| `Sandbox.QemuSandbox.Live` | packages/tokimo-packages-vm-linux/src/lib.rs:131-329 | the object, through any calls, is in the state of that life, and until it is dropped keeps what every life keeps |
| `Sandbox.LifeKeepsBox` | packages/tokimo-packages-vm-linux/src/lib.rs:132-329 | over every life: every listening socket is tracked; a running sandbox has its process, its control connection and one server per mount |
| `Sandbox.OneStartPasses` | packages/tokimo-packages-vm-linux/src/lib.rs:133-136 | after any start, failed or not, every further start is refused and changes nothing |
| `Sandbox.StartLeavesProcessIff` | packages/tokimo-packages-vm-linux/src/lib.rs:132-259 | the first start leaves a process exactly if spawning was reached and worked, also when only the control connection failed; it is running exactly if there was no fault; a failed bind leaves the earlier servers |
| `Sandbox.StopEndsProcess` | packages/tokimo-packages-vm-linux/src/lib.rs:261-289 | over every life a stop from running or starting leaves no process and no control connection, and otherwise nothing changes |
| `Sandbox.WaitStopsIff` | packages/tokimo-packages-vm-linux/src/lib.rs:300-306 | waiting marks the sandbox stopped exactly when there is a process |
| `Sandbox.DropEndsProcess` | packages/tokimo-packages-vm-linux/src/lib.rs:319-328 | dropping leaves no process |
| `Sandbox.ProcessHasCause` | packages/tokimo-packages-vm-linux/src/lib.rs:132-328 | there is a process only after a start and before any drop that follows it |
| `Sandbox.CleanupIff` | packages/tokimo-packages-vm-linux/src/lib.rs:261-328 | stop leaves no listener exactly when the sandbox was running or starting, or had none; stop after wait leaves them all; drop leaves none |
| `Sandbox.SocketsDistinct` | packages/tokimo-packages-vm-linux/src/lib.rs:177-177 | mounts never share a socket path |
| `Sandbox.DecimalSpells` | packages/tokimo-packages-vm-linux/src/lib.rs:177-177 | the index in a socket or device name is spelled in decimal digits without leading zeros |
| `Sandbox.ChardevsDistinct` | packages/tokimo-packages-vm-linux/src/lib.rs:205-205 | no two ports have the same device name |
| `Sandbox.EachMountReachesItsFilesystem` | packages/tokimo-packages-vm-linux/src/lib.rs:159-210 | in a running sandbox with distinct clean tags, the port the guest opens for the k-th mount it reads leads to the one server answering from the filesystem of the k-th configured mount: its host directory, read-only or not, or its own filesystem |
| `Sandbox.PortNamesDistinctIff` | packages/tokimo-packages-vm-linux/src/lib.rs:204-208 | port names are unambiguous exactly when tags are distinct |
| `VmLoop.VmThread.RunLoop` | packages/tokimo-packages-vm-macos/src/imp.rs:283-318 | the command loop, to its end |
| `VmLoop.EveryRequestAccountedFor` | packages/tokimo-packages-vm-macos/src/imp.rs:283-318 | over every command sequence, requests received are one for one replies sent plus waiters pending; none is pending once stopped or shut down |
| `VmLoop.AnsweredAtMostOnce` | packages/tokimo-packages-vm-macos/src/imp.rs:287-317 | no request is answered twice |
| `VmLoop.RepliesExplained` | packages/tokimo-packages-vm-macos/src/imp.rs:287-317 | each reply is a stop's own outcome, or success for a stop or wait once the machine is over |
| `VmLoop.WaitAnsweredOnlyAtEnd` | packages/tokimo-packages-vm-macos/src/imp.rs:301-317 | a wait is answered only after a successful stop or a shutdown, and with success |
| `VmLoop.RemembersIff` | packages/tokimo-packages-vm-macos/src/imp.rs:283-318 | the machine counts as stopped exactly once a stop attempt has worked before any shutdown, and the loop has ended exactly once a shutdown has come |
| `VmLoop.AnswersFollow` | packages/tokimo-packages-vm-macos/src/imp.rs:287-307 | what the next request is answered: success at once after a stop that worked; before one, a wait is kept, a failed attempt answers its caller alone, and an attempt that works answers the waiters in order and then its caller |
| `Repl.RunIsMaximal` | examples/repl.rs:118-131 | the run of Ctrl-A the filter counts is the maximal one |
| `Repl.EscapeFilter.Feed` | examples/repl.rs:108-136 | each read: the filter leaves exactly at the first x after a maximal Ctrl-A run of odd length; otherwise what was sent and the held Ctrl-A are all the input |
| `Repl.FeedAll` | examples/repl.rs:108-136 | whether and at which byte it leaves, and what is sent if it stays, depend only on the concatenation of the reads; if it leaves, it is at the first escape, and exactly the reads before that one have been sent |

## Left out

- RpcSystem.RefinesDirectCalls: assumes requests and answers of at most 64 MiB (`RpcLimits.OutcomesDirectIff` shows this is needed), no transport error but the end of the stream when the server stops, and no cancelled call; a call dropped half way leaves its bytes on the stream just as a refused answer does.
- Replies.FolderDeliveredIff: a directory of 2^63 entries or more, and one whose table changes order between pages, are excluded.
- RpcLimits.WrongAnswer: the filesystem of the run is a made-up one with a name of 64 MiB; its transport is large enough to hold the answer.
- Replies.EveryReplyExpected: the times in an attribute are settled by `Replies.TimesAreOfTheCall`, not by the observer; which of the children come on which page depends on the table's order; `Replies.FolderDeliveredIff` settles them for a whole directory.
- EndToEnd.KernelRun: once a call has gone beyond the frame limit the stream is out of step or its server gone, and no later operation of the session is described.
- EndToEnd.StepRight: the same; it describes an operation on a stream that is still in step.
- Session.AgentOverStream: begins after the opening exchange, which reads and changes nothing.
- MemoryVfs.MemoryFs.Write: offsets are unbounded here; in the program an offset sum beyond 64 bits wraps or panics, but `Session.OffsetsNeverOverflow` shows that no request of the agent that reaches the filesystem does. Memory is never exhausted.
- MemoryVfs.MemoryFs.Read: the same for the offset sum.
- HostFs.HostDir.Read: `resolve` is taken to map each path to its own entry, so symbolic links, `..`, the root path and the jail check are not modelled; nor are disk errors other than the ones named in the contracts.
- The host directory's `stat`, `list`, `mkdir`, `remove`, `rmdir` and `rename`: one operating-system call each.
- HostFs.HostDir.Write: the file handle's background flush after return is taken as done.
- Agent.RunKeepsTables: inode and handle counters are unbounded instead of 64-bit.
- TokimoFuse.Fuse.OnGetAttr: replies carry the filesystem's attributes; their conversion to FUSE attributes and cache lifetimes is not modelled.
- Cmdline.ParseCmdline: pathname expansion and quoting, and the wait for each mount to appear, are not modelled.
- Sandbox.QemuSandbox.DoStart: the runtime directory, image lookup and other QEMU arguments are outside the model except as points of failure; mount identifiers are reduced to their tags, and tasks serving already accepted connections are not tracked.
- Sandbox.EachMountReachesItsFilesystem: says where an agent's port leads, not that the agent starts; with a slash in its tag (scripts/image/build.sh:162-163 then names a log file in no directory) or an empty path it does not.
- VmLoop.VmThread.RunLoop: the hypervisor's stop attempt is a success or failure carried by the command; a power-off by the guest is never observed by the loop and so not modelled.
- The texts of errors raised by libraries and the operating system are fixed constants.
- The macOS caller's side (`Inner::stop`, `wait`, `drop`): thin wrappers over the loop's replies.
- The QMP client, the WSL backend, configuration builders and the facade crate: they would add only easy members.
- Sockets, processes, sleeps, timeouts, image building and Virtualization.framework objects: input and output.
