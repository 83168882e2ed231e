# A verified model of the game server's wire formats and server state

The repository is a C++ game server and its test client. Client and server exchange FlatBuffers
(the vendored `Common/flatbuffers` headers with the generated `Common/UserEvent_generated.h`), framed
by a four-byte length. A worker thread keeps the list of clients and does the framing, a database
thread works through a queue of requests. This project models those parts in Dafny and proves what
they promise: what is written is what is read, what is accepted is readable, what is built is
accepted, packets arrive whole and in order, and the server's tables mean what they say after every
run of requests.

Little endian and a 64-bit `size_t` are fixed throughout. Bytes are numbers below 256; 16-, 32- and
64-bit arithmetic wraps where the code's does.

## How the model is laid out

FlatBuffers. The builder counts offsets from the end of a buffer that grows downwards, readers follow
offsets forward from the start.

- `Bytes`: scalars as little-endian bytes, buffers that grow in front, `PaddingBytes`.
- `VectorDownward`: the two-ended buffer as a class over an array, refining two sequences.
- `BuilderSpec`: each builder operation as a function on values; `Builder`: the class
  `FlatBufferBuilder` with its scratch stack and in-place patching, proved equal to those functions
  (`Scratch` and `VtableWriting` hold its byte-level lemmas).
- `Table`: the accessors, which return `None` when a read would leave the buffer; `Schema`: schemas as
  data, and decoding a whole buffer by schema.
- `TableLayout`, `TableBuild`, `Layout`, `BuildLaid`: when an object lies in the buffer as the value it
  stands for, that every operation puts it so, and that it stays so; `LayoutReads`: then it reads as
  that value; `LayoutVerifies`: then it passes the verifier.
- `Building`, `BuildRuns`, `FinishedBuffers`, `BuilderRuns`, `BuildSizes`: whole runs of operations and
  what they mean, with no reference to bytes; the main theorems; the same end to end on the class; and
  when a run meets no failing assertion.
- `TableSizes`: the table size in a vtable and the fields it spans. `BuildExact`: what every operation
  writes, to the byte.
- `Sharing`: vtable sharing and string pooling. `RootPointer`: the way back from a root to its buffer.
- `VerifierSpec`, `VerifierSoundness`, `VerifierExact`, `VerifierLimits`, `VerifierAlignment`,
  `VerifierObject`: the verifier as functions, what its acceptance guarantees, exactly what it accepts,
  and the class with its counters.
- `UserEvents`, `Packets`: the 36 tables of the game's packets as schema data, and what a client's
  packet is to the server.

FlexBuffers. `FlexWidths` (widths and the arithmetic of relative offsets), `FlexSpec` (the builder's
operations as functions), `FlexReader` (the accessors), `FlexLayout`, `FlexVectors`, `FlexRoundTrip`
(a value on the stack stands for a tree, and every operation keeps that), `FlexMaps` (sorting and
lookup), `FlexSharing` (one place for equal keys and strings), `FlexExact` (the bytes and widths of every
operation), `FlexBuilder` (the class and its loops), `FlexSizes` (a bound on the size of every tree).

Server. `WorkerLimits` (constants), `ConcurrentAdd`, `ConcurrentCalls`, `ConcurrentProgress` and
`ConcurrentEmpty` (insertion by several threads, one atomic operation a step), `ClientList` (the heap
list, one thread at a time, with removal), `Framing` (both ends of a connection, every interruption a
script can describe), `Delivery` (events from the client's builder to the server's reader), `Sessions`
and `Trading` (the tables as maps, handlers as methods on them, theorems over all runs), `Utf8`.

## Where the code does not keep a promise

Each of these is a theorem, with the exact condition or a concrete run.

- The client limit is checked once, before insertion: it is kept in every interleaving exactly with one
  thread or a full list, and otherwise k threads can exceed it by k - 1 and no more
  (`ConcurrentAdd.LimitKeptExactly`, `ConcurrentAdd.BoundReached`, `ConcurrentAdd.RunSafe`).
- Two threads that both find the list of clients empty each start a list of their own, and the client of
  the first is let in and lost; from an empty list nothing is lost in every interleaving exactly with one
  thread, and from any other list nothing ever is (`ConcurrentEmpty.EmptyKeptExactly`,
  `ConcurrentEmpty.TwoThreadsLose`, `ConcurrentCalls.ClientsConserved`).
- A receive call that meets five waits in a row inside a packet, or gets part of a header, drops the
  bytes and keeps the connection; the rest is then taken for packets (`Framing.DropsExactly`,
  `Framing.DroppedBytesMislead`, `Framing.PartialHeaderMisleads`). A header of which only a part was
  sent goes unnoticed, exactly if the first send event takes fewer than four bytes
  (`Framing.Sender.SendPacket`, `Framing.ShortHeaderSent`).
- A purchase's price is cut to 32 bits, so large purchases can cost nothing
  (`Trading.BuyingIsFair`, `Trading.CutMakesProfit`).
- A sale whose rollback fails leaves its transaction open, and the next transaction commits the half
  that was done (`Trading.SaleAllOrNothing`, `Trading.HalfSaleStaysOpen`, `Trading.OpenIsCommitted`). A committed
  sale is reported as failed when the gold cannot be read back (`Trading.SoldButFailed`).
- The verifier checks the alignment of a vector's length only, so eight-byte elements may be
  misaligned in an accepted buffer (`VerifierAlignment.WideElementsUnchecked`).
- Rejoining an inactive server does not check whether its name is in use
  (`Sessions.NamesKeptUnless`).
- The assertion `size() < max_size_` of `ensure_space` is evaluated before the new bytes are counted,
  so a push passes the limit exactly if its bytes reach it (`VectorDownward.Vector.Push`,
  `VectorDownward.LimitPassed`).

## Model

| member | source | states |
|---|---|---|
| BuilderRuns.Serialize | Common/flatbuffers/flatbuffer_builder.h:285-1283 | On the builder class, in place: any well-typed sequence of strings, shared strings, scalar and offset vectors and tables, then Finish. The bytes decode from the root to the value the operations describe, every object reads back at the offset returned for it, and the verifier accepts the bytes under all options that allow their size, nesting and number of tables |
| BuildSizes.SerializeSized | Common/flatbuffers/flatbuffer_builder.h:285-1283 | The same under conditions a caller can check before building: operations of the right kinds, and per-operation size bounds that add up to less than the maximal buffer; the result is within the bound |
| BuildSizes.BuildSucceeds | Common/flatbuffers/flatbuffer_builder.h:285-1283 | Under those conditions no assertion of the builder fails on the way, whatever the settings |
| FinishedBuffers.RoundTrip | Common/flatbuffers/flatbuffer_builder.h:325-484 | In a finished buffer every object of the run, built early or late, with vtables shared or not, strings pooled or not, defaults forced or not, reads through the accessors as the value it was built from; a field not added or equal to its default reads as the default |
| FinishedBuffers.RootRoundTrip | Common/flatbuffers/buffer.h:188-195 | Following the root offset, with or without a size prefix, gives the root table's value |
| FinishedBuffers.BuiltIsVerified | Common/flatbuffers/verifier.h:183-223 | Completeness: the verifier accepts every finished buffer of the builder, alignment checks on or off, if its nesting and number of tables are within the options |
| VerifierSoundness.VerifiedIsReadable | Common/flatbuffers/verifier.h:79-277 | Soundness, for every byte array, schema and setting: an accepted buffer can be read completely - every field, element and character - without a read outside it |
| VerifierSoundness.TableBalanced | Common/flatbuffers/verifier.h:279-290 | Every accepted table gives its depth back; the table count only rises and stays within its limit (a limit of 2^32 - 1 excepted, where it may wrap) |
| VerifierExact.AcceptsExactly | Common/flatbuffers/verifier.h:79-277 | What the verifier accepts, for all bytes, schemas and options, said of the bytes and accessors alone: at least twelve bytes, the identifier up to its first zero, a root offset and present offset fields that store a number in 1..2^31-1 and lead inside, vtables, fields, lengths, strings and elements inside and aligned if asked - and a value read that nests no deeper and has no more tables than the limits |
| VerifierExact.TableSound | Common/flatbuffers/verifier.h:183-199 | An accepted table is good in that sense with everything it refers to |
| VerifierExact.TableComplete | Common/flatbuffers/verifier.h:183-199 | A good table is accepted exactly if its depth and number of tables fit what the counters leave, and then they count exactly that; a limit of 2^32 - 1 is none, as the counters wrap |
| VerifierExact.StartExact | Common/flatbuffers/verifier.h:183-199 | The checks at a table start, in unsigned arithmetic, hold exactly if the table and its vtable lie inside and aligned, the vtable size is even, and both counters have room |
| VerifierExact.ZeroRefused | Common/flatbuffers/verifier.h:259-272 | A buffer of zeros is refused, of any length, under any schema and options |
| VerifierLimits.AcceptedIsLimited | Common/flatbuffers/verifier.h:279-290 | Whatever the bytes: the value read from an accepted buffer nests no deeper and has no more tables than the options allow (limits of 2^32 - 1 excepted) |
| VerifierLimits.TableCounted | Common/flatbuffers/verifier.h:183-199 | An accepted table gives its depth back, was within the depth limit with everything below it, and counted exactly its tables |
| VerifierAlignment.AcceptedIsAligned | Common/flatbuffers/verifier.h:88-96 | With alignment checking on, everything loaded from an accepted buffer is aligned: root offset, vtables, fields, offsets, lengths, and vector elements of up to four bytes |
| VerifierAlignment.WideElementsUnchecked | Common/flatbuffers/verifier.h:144-159 | For wider elements it is not so: a concrete buffer with a misaligned eight-byte element is accepted, as only the length field of a vector is checked |
| VerifierAlignment.AcceptedIsIdentified | Common/flatbuffers/verifier.h:201-211 | What is accepted under an identifier without zero bytes carries exactly that identifier |
| Sharing.SharingIsInvisible | Common/flatbuffers/flatbuffer_builder.h:453-481 | The same operations under any two settings, with vtable sharing and string pooling on or off, read as the same value |
| Sharing.RunVtablesDiffer | Common/flatbuffers/flatbuffer_builder.h:453-481 | With sharing on, in every run no two recorded vtables have the same bytes |
| Sharing.EndTableShares | Common/flatbuffers/flatbuffer_builder.h:464-475 | Every recorded vtable lies below the table being closed, so "the vtable used lies at the front of the buffer" means exactly "it is new" |
| Sharing.SharedOffsetsAgree | Common/flatbuffers/flatbuffer_builder.h:604-624 | Two shared strings of a run get the same offset if and only if they have the same characters |
| RootPointer.StartIsFound | Common/flatbuffers/flatbuffers.h:44-76 | Inverse of GetRoot: if the root table is the last object built, the search finds the start of the finished buffer, for every identifier without zero bytes, with or without a size prefix |
| RootPointer.StartFound | Common/flatbuffers/flatbuffers.h:44-76 | The same for any buffer whose root table comes first behind a zero-padded header, for every alignment up to 32 |
| RootPointer.StartIsFirst | Common/flatbuffers/flatbuffers.h:44-76 | For all bytes: what the search returns is the first of the nine positions in front of root and vtable that leads to the root, and nothing if none of them does |
| RootPointer.GetBufferStartFromRootPointer | Common/flatbuffers/flatbuffers.h:44-76 | The counted loop, on a 4-aligned address, computes the search StartIsFound is about |
| RootPointer.NothingImpersonates | Common/flatbuffers/flatbuffers.h:55-60 | Between the objects and the true start neither padding nor the identifier passes for the root offset |
| RootPointer.HeaderSpan | Common/flatbuffers/flatbuffers.h:63-69 | The counted steps of four bytes always suffice to reach the start |
| Packets.SerializePacket | Common/UserEvent_generated.h:3687-3697 | A packet built around any event by the client reads as its event type, the event it was built from and the socket; if it is at most 65536 bytes long, the server's verifier accepts it with its default limits and no further condition |
| Delivery.Deliver | TestClient/ClientMain.cpp:119-151 | From builder to reader: what arrives on the queue are packets for the first events, in order, each accepted by the server's verifier and read as the event sent; and all of them under the conditions of Exchange |
| Packets.AcceptedPacketIsSafe | Common/UserEvent_generated.h:3848-3851 | Whatever bytes arrive, if the server's verifier accepts them, reading the packet with everything in its event stays inside |
| Packets.PacketMeans | Common/UserEvent_generated.h:3687-3697 | CreateDatabasePacket wraps the event of its type and leaves the meaning of everything built before as it was |
| Packets.PacketBounds | Common/UserEvent_generated.h:3533-3540 | A packet read from any buffer nests at most three tables deep and has at most 2 + 14 * (size / 4) tables |
| Packets.TableBounds | Common/UserEvent_generated.h:3533-3540 | The same for the table of an event: at most two deep, and every item of a list takes four bytes of offset |
| UserEvents.EventsOk | Common/UserEvent_generated.h:3533-3540 | All 36 tables have field ids, types and default values the generic proofs need, and the union stands right behind its type field |
| UserEvents.FieldsFit | Common/UserEvent_generated.h:3533-3540 | The fields of every table have their ids in order, refer only to tables of a lower level, and the union occurs in the packet only |
| UserEvents.EventTablesExist | Common/UserEvent_generated.h:3699-3826 | Every event type has a table of its own, and none of them is the packet |
| BuildRuns.RunBuilds | Common/flatbuffers/flatbuffer_builder.h:325-484 | Invariant of every run under any settings: all results so far are in place as the values they denote, recorded vtables and pooled strings are in order, no table is open |
| BuildRuns.TableStep | Common/flatbuffers/flatbuffer_builder.h:410-484 | A table made by StartTable, adds and EndTable keeps that invariant and is laid out as the value it denotes |
| BuildRuns.ScalarHeld | Common/flatbuffers/flatbuffer_builder.h:333-337 | After EndTable a scalar field is found through the vtable with the value added, and has no entry only if the default is to be read |
| BuildRuns.RefHeld | Common/flatbuffers/flatbuffer_builder.h:343-346 | After EndTable an offset field leads to the object it was given; a null offset leaves no entry |
| BuildRuns.SharedStringStep | Common/flatbuffers/flatbuffer_builder.h:604-624 | Writing a shared string and taking it back if it is pooled keeps the invariant, and the result reads as the string either way |
| BuildRuns.OrderSeparates | Common/flatbuffers/buffer.h:79-83 | The order of the pool leaves two strings unordered exactly when they are equal |
| BuildRuns.FindStringMatches | Common/flatbuffers/flatbuffer_builder.h:1336-1346 | Searching the pool finds a string with the same characters if and only if there is one |
| TableLayout.EndTableLayout | Common/flatbuffers/flatbuffer_builder.h:417-484 | EndTable, over a new or a shared vtable, extends the buffer in front only, puts the table at a 4-aligned distance, gives every field the entry wanted through the signed offset, and keeps all recorded vtables in order |
| TableLayout.EntriesFromBytes | Common/flatbuffers/flatbuffer_builder.h:458-468 | A vtable found byte for byte equal to the one wanted has the wanted entry for every field |
| TableSizes.EndTableSizes | Common/flatbuffers/flatbuffer_builder.h:435-439 | For every EndTable, over a new or a shared vtable, the second word of the vtable is the distance from the table to where the buffer ended at StartTable, and the vtable ends with a field that is there |
| TableSizes.FinishedSpans | Common/flatbuffers/flatbuffer_builder.h:325-484 | For every table of a finished run, read through the accessors: that word is the distance from the table to where the buffer ended when the table was opened; a field has no entry exactly if it is null or an unforced default, and every other one lies with its whole size inside that distance |
| BuildExact.EndTableExact | Common/flatbuffers/flatbuffer_builder.h:422-482 | What EndTable writes: four bytes behind the least zeros that align them, and in front the vtable exactly if vtables are not shared or no recorded one has the same bytes; then the new one is recorded, else a recorded one is used |
| BuildExact.InitExact | Common/flatbuffers/flatbuffer_builder.h:332-346 | A field stored takes its size behind the least zeros that align it, and asks for that alignment; one that is not stored changes nothing |
| BuildExact.StringExact | Common/flatbuffers/flatbuffer_builder.h:1375-1381 | A string to the byte: its length, its characters, a zero, and as few zeros more as align the length |
| BuildExact.SharedStringExact | Common/flatbuffers/flatbuffer_builder.h:604-624 | A shared string writes nothing and pools nothing if an equal one is pooled, and otherwise is written as a string and pooled |
| BuildExact.ScalarVectorExact | Common/flatbuffers/flatbuffer_builder.h:736-762 | A scalar vector to the byte: its length, its elements, and the least zeros that align both; an empty one asks for the alignment of its length only |
| BuildExact.OffsetVectorExact | Common/flatbuffers/flatbuffer_builder.h:785-790 | An offset vector takes four bytes an element and four for its length, behind the least zeros that align them |
| BuildExact.RunAligns | Common/flatbuffers/flatbuffer_builder.h:285-287 | Over every run the alignment kept for Finish is exactly the largest that an operation asked for |
| BuildExact.FinishedExact | Common/flatbuffers/flatbuffer_builder.h:1258-1283 | A finished buffer is what the run wrote behind the least zeros that, with the header, reach a multiple of that alignment |
| BuildExact.FinishKeeps | Common/flatbuffers/flatbuffer_builder.h:1258-1283 | Finish marks the buffer finished, forgets the recorded vtables and touches nothing else of the builder |
| BuildExact.TableNests | Common/flatbuffers/flatbuffer_builder.h:409-484 | A table is open from StartTable to EndTable, and nothing is left of its fields afterwards |
| TableBuild.AddInitsStore | Common/flatbuffers/flatbuffer_builder.h:325-346 | After any sequence of adds of different fields each one that had to be stored is found where it was tracked, with its value and alignment, and nothing else is tracked |
| BuildLaid.CreateStringLays | Common/flatbuffers/flatbuffer_builder.h:1375-1381 | A string lies with its 4-aligned length directly in front of its characters and a zero behind them |
| BuildLaid.CreateScalarVectorLays | Common/flatbuffers/flatbuffer_builder.h:736-762 | A scalar vector lies with its length directly in front of its elements, each with its value and aligned to its size |
| BuildLaid.CreateOffsetVectorLays | Common/flatbuffers/flatbuffer_builder.h:785-790 | Element k of an offset vector leads to the k-th object given |
| BuildLaid.PushLengthLays | Common/flatbuffers/flatbuffer_builder.h:676-684 | After pre-alignment no padding comes between a length and its data |
| BuildLaid.PreAlignGrows | Common/flatbuffers/flatbuffer_builder.h:516-520 | PreAlign pads in front so that the announced bytes end on a multiple of the alignment |
| BuildLaid.AlignGrows | Common/flatbuffers/flatbuffer_builder.h:289-292 | Align reaches a multiple of the size with less than that size of padding |
| BuildLaid.PushOffsetLays | Common/flatbuffers/flatbuffer_builder.h:367-390 | A pushed offset lies 4-aligned and, read where it is stored, leads forward to its target |
| FinishedBuffers.FinishLays | Common/flatbuffers/flatbuffer_builder.h:1258-1283 | Finish puts identifier, root offset and size prefix in front; the finished size is a multiple of the largest alignment and exceeds the content and header by less than it |
| FinishedBuffers.FinishedLays | Common/flatbuffers/flatbuffer_builder.h:1258-1283 | After Finish every object of the run is laid out as before, counted from the end, and the header leads to the root |
| Layout.LaidStable | Common/flatbuffers/flatbuffer_builder.h:417-484 | Whatever is written in front later, an object of any type stays laid out as the same value |
| LayoutVerifies.AlignedFromStart | Common/flatbuffers/base.h:458-460 | In a finished buffer what is aligned counted from the end is aligned counted from the start |
| LayoutVerifies.TableVerifies | Common/flatbuffers/verifier.h:183-199 | A laid out table passes its generated check, with the depth given back and the tables counted exactly |
| LayoutReads.TableReads | Common/flatbuffers/table.h:45-56 | A laid out table decodes, field by field, to its value |
| LayoutReads.ObjectReads | Common/flatbuffers/vector.h:192-195 | A laid out string, vector or table decodes through the accessors to its value |
| LayoutReads.EntryReads | Common/flatbuffers/table.h:29-43 | The accessor finds the vtable by the signed offset and returns the entry stored for the field, 0 beyond the vtable's end |
| LayoutReads.PointerReads | Common/flatbuffers/table.h:51-56 | An offset field reads as the position of its target, an absent one as null |
| LayoutReads.OffsetReads | Common/flatbuffers/buffer.h:93-120 | Element i of an offset vector reads as the position of its target, counted from the element itself |
| Builder.FlatBufferBuilder.constructor | Common/flatbuffers/flatbuffer_builder.h:95-114 | A new builder is empty, shares vtables and does not force defaults |
| Builder.FlatBufferBuilder.Clear | Common/flatbuffers/flatbuffer_builder.h:168-180 | The builder is as new again and keeps its settings and allocation |
| Builder.FlatBufferBuilder.Align | Common/flatbuffers/flatbuffer_builder.h:289-292 | Pads in place as the function AlignGrows is about |
| Builder.FlatBufferBuilder.PushElement | Common/flatbuffers/flatbuffer_builder.h:309-316 | Aligns and writes a scalar in front; the result is its distance from the end |
| Builder.FlatBufferBuilder.PushOffset | Common/flatbuffers/flatbuffer_builder.h:318-321 | Writes an offset relative to where it lands |
| Builder.FlatBufferBuilder.TrackField | Common/flatbuffers/flatbuffer_builder.h:325-330 | Records one field location on the scratch stack and the largest field id |
| Builder.FlatBufferBuilder.AddElement | Common/flatbuffers/flatbuffer_builder.h:332-337 | Writes and tracks a scalar unless it is the default and defaults are not forced |
| Builder.FlatBufferBuilder.AddOffset | Common/flatbuffers/flatbuffer_builder.h:342-346 | Writes and tracks an offset unless it is null |
| Builder.FlatBufferBuilder.StartTable | Common/flatbuffers/flatbuffer_builder.h:409-415 | Opens a table at the present size |
| Builder.FlatBufferBuilder.WriteEntries | Common/flatbuffers/flatbuffer_builder.h:440-451 | The loop over the scratch area fills in exactly the vtable of the tracked fields |
| Builder.FlatBufferBuilder.FindSame | Common/flatbuffers/flatbuffer_builder.h:456-471 | The loop over the recorded vtables finds the first with the same bytes |
| Builder.FlatBufferBuilder.UseVtable | Common/flatbuffers/flatbuffer_builder.h:453-475 | Takes the new vtable back and uses the equal older one, or keeps and records the new one |
| Builder.FlatBufferBuilder.EndTable | Common/flatbuffers/flatbuffer_builder.h:417-484 | The byte patching, scratch loops and popping together do what EndTableLayout, EndTableSizes, EndTableExact, EndTableShares and TableStep are about |
| Builder.FlatBufferBuilder.PreAlign | Common/flatbuffers/flatbuffer_builder.h:516-520 | Pads in place as the function PreAlignGrows is about |
| Builder.FlatBufferBuilder.CreateString | Common/flatbuffers/flatbuffer_builder.h:534-538 | Writes a string as the function CreateStringLays is about |
| Builder.FlatBufferBuilder.CreateSharedString | Common/flatbuffers/flatbuffer_builder.h:604-624 | Writes the string, looks for an equal one and pops it again, or pools it, as the function SharedStringStep is about |
| Builder.FlatBufferBuilder.StartVector | Common/flatbuffers/flatbuffer_builder.h:676-684 | Opens a vector with both alignments |
| Builder.FlatBufferBuilder.EndVector | Common/flatbuffers/flatbuffer_builder.h:669-674 | Closes a vector with its length |
| Builder.FlatBufferBuilder.CreateScalarVector | Common/flatbuffers/flatbuffer_builder.h:736-762 | Writes a vector of scalars as one block of bytes |
| Builder.FlatBufferBuilder.CreateOffsetVector | Common/flatbuffers/flatbuffer_builder.h:785-790 | Pushes the offsets last to first, each relative to where it lands |
| Builder.FlatBufferBuilder.Finish | Common/flatbuffers/flatbuffer_builder.h:1258-1283 | Aligns the whole buffer and writes the header, as the function FinishLays is about |
| BuilderRuns.CreateTable | Common/UserEvent_generated.h:3687-3697 | A generated Create function - StartTable, one add per field, EndTable - run in place |
| BuilderRuns.Execute | Common/flatbuffers/flatbuffer_builder.h:285-810 | A whole sequence of operations run in place, over any growth of the buffer, gives the state and offsets RunBuilds is about |
| VectorDownward.Vector.constructor | Common/flatbuffers/vector_downward.h:33-45 | An empty buffer: no data, no scratch, nothing allocated yet |
| VectorDownward.Vector.GrownCapacity | Common/flatbuffers/vector_downward.h:269-278 | The capacity after growth is the least multiple of the buffer alignment that adds the bytes asked for, and at least half the old capacity or the initial size |
| VectorDownward.Vector.Reallocate | Common/flatbuffers/vector_downward.h:269-284 | Moving both ends into a new allocation of that capacity changes neither the data nor the scratch sequence and leaves the room asked for |
| VectorDownward.Vector.EnsureSpace | Common/flatbuffers/vector_downward.h:141-148 | After it there is room, and both sequences are as before; the buffer is reallocated exactly if the unused part was smaller than asked |
| VectorDownward.Vector.MakeSpace | Common/flatbuffers/vector_downward.h:150-157 | The data sequence is longer in front, everything behind and the scratch are as before |
| VectorDownward.Vector.Push | Common/flatbuffers/vector_downward.h:195-197 | Data becomes the bytes followed by the old data, scratch is untouched; the size reaches the limit exactly if the bytes make up the difference, although the assertion held |
| VectorDownward.LimitPassed | Common/flatbuffers/vector_downward.h:141-157 | A limit of 8 passed by a push of 12 bytes whose assertion holds |
| VectorDownward.Vector.Fill | Common/flatbuffers/vector_downward.h:213-222 | Data becomes zeros followed by the old data; scratch is untouched |
| VectorDownward.Vector.Pop | Common/flatbuffers/vector_downward.h:224-227 | Drops the newest bytes and nothing else |
| VectorDownward.Vector.ScratchPush | Common/flatbuffers/vector_downward.h:205-209 | Scratch gets the bytes at its end; data is untouched |
| VectorDownward.Vector.ScratchPop | Common/flatbuffers/vector_downward.h:229 | Scratch loses its last bytes; data is untouched |
| VectorDownward.Vector.DataAt | Common/flatbuffers/vector_downward.h:193 | data_at(o) denotes the last o bytes of the data, whatever growth happened |
| VectorDownward.Vector.Clear | Common/flatbuffers/vector_downward.h:90-101 | Both sequences are empty |
| Bytes.PaddingIsLeast | Common/flatbuffers/base.h:458-460 | PaddingBytes is the least padding that reaches a multiple of a power of two |
| Bytes.ScalarRoundTrip | Common/flatbuffers/base.h:441-445 | A scalar written little-endian reads back as itself |
| Bytes.BytesRoundTrip | Common/flatbuffers/base.h:427-432 | Bytes read as a scalar are written back as the same bytes |
| Bytes.SignedWrap | Common/flatbuffers/table.h:29-33 | The signed vtable offset survives its 32-bit pattern |
| VerifierSpec.TableStartReadable | Common/flatbuffers/verifier.h:183-199 | After VerifyTableStart every field entry can be read: the unsigned wrap-around hid no position outside, and the even vtable size leaves room for a whole entry |
| VerifierSpec.VectorInside | Common/flatbuffers/verifier.h:145-159 | The bound on the length keeps the product from wrapping: an accepted vector lies inside with all its elements |
| VerifierSoundness.StringReadable | Common/flatbuffers/verifier.h:134-141 | An accepted string has its terminator inside |
| VerifierSoundness.FieldReadable | Common/UserEvent_generated.h:3533-3540 | An accepted field, scalar, object or union by its type, can be read with all it leads to |
| VerifierObject.Verifier.VerifyTableStart | Common/flatbuffers/verifier.h:183-199 | The in-place check decides as the function TableStartReadable is about and counts depth and tables |
| VerifierObject.Verifier.VerifyComplexity | Common/flatbuffers/verifier.h:279-283 | Counts up and compares with both limits, in 32-bit arithmetic |
| VerifierObject.Verifier.EndTable | Common/flatbuffers/verifier.h:285-290 | Gives the depth back |
| VerifierObject.Verifier.VerifyVectorOfStrings | Common/flatbuffers/verifier.h:161-169 | The loop accepts exactly if every string is accepted |
| VerifierObject.Verifier.VerifyVectorOfTables | Common/flatbuffers/verifier.h:171-180 | The loop accepts exactly if every table is, with the counters carried from one to the next |
| VerifierObject.Verifier.VerifyTable | Common/UserEvent_generated.h:3533-3540 | The chain of checks of a generated Verify, terminating because every offset leads forward |
| VerifierObject.Verifier.VerifyOneField | Common/UserEvent_generated.h:3699-3826 | A field's check; the union dispatches on its type, unknown types are accepted unread |
| VerifierObject.Verifier.VerifyBufferFromStart | Common/flatbuffers/verifier.h:200-223 | Accepts in place exactly what AcceptsExactly says; on acceptance the depth is 0 again and the whole buffer is readable |
| VerifierObject.Verifier.VerifyBuffer | Common/flatbuffers/verifier.h:242-247 | The same from position 0 |
| VerifierObject.Verifier.VerifySizePrefixedBuffer | Common/flatbuffers/verifier.h:249-256 | The same behind a size prefix, and exactly if the prefix fits the buffer |
| FlexBuilder.Encode | Common/flatbuffers/flexbuffers.h:1153-1419 | On the builder class, in place: the finished bytes of any tree of null, bool, int, uint, string, blob, vector and map values read from GetRoot as that tree, its maps sorted by key |
| FlexSizes.EncodeSized | Common/flatbuffers/flexbuffers.h:1153-1419 | The same under a condition on the tree alone, a bound on its bytes known before it is built |
| FlexSizes.AddFits | Common/flatbuffers/flexbuffers.h:1073-1662 | A tree takes no more bytes than that bound, whatever is shared and whatever width is forced |
| FlexRoundTrip.RoundTrip | Common/flatbuffers/flexbuffers.h:1073-1662 | The same as a fact about all trees and flags: keys and strings shared or not, whatever least width is forced |
| FlexReader.ReadsUnique | Common/flatbuffers/flexbuffers.h:880-938 | The accessors determine the tree: a reference reads as at most one |
| FlexReader.ReadsStable | Common/flatbuffers/flexbuffers.h:880-938 | Whatever is appended later, a reference goes on reading as the same tree |
| FlexReader.BeyondReadsNull | Common/flatbuffers/flexbuffers.h:880-886 | Beyond the end of what reads as a vector or a map every element reads as null |
| FlexMaps.LookupGiven | Common/flatbuffers/flexbuffers.h:908-924 | Lookup agrees with the association list: in a map built with distinct keys the value found under a name is the one given with it, and any other name finds null |
| FlexMaps.Lookup | Common/flatbuffers/flexbuffers.h:908-924 | The binary search over the key vector finds the index with the name exactly if there is one |
| FlexMaps.NormalIsSorted | Common/flatbuffers/flexbuffers.h:1174-1223 | A map built with distinct keys has its keys strictly ascending and holds exactly the entries given, each once |
| FlexMaps.OrderSorts | Common/flatbuffers/flexbuffers.h:1196-1213 | Sorting arranges all entries, each once, with no key before a smaller one |
| FlexExact.LessIsStrcmp | Common/flatbuffers/flexbuffers.h:1196-1213 | The order of a map's keys is that of strcmp: alike up to a position, and there the first ends or has the smaller byte |
| FlexWidths.ElemWidthLoop | Common/flatbuffers/flexbuffers.h:1525-1552 | The loop over 1, 2, 4 and 8 bytes always returns before its failing assertion, with the least width in which the offset fits |
| FlexWidths.FitsWider | Common/flatbuffers/flexbuffers.h:1534-1548 | An offset that fits in a width still fits in every larger one, although padding and preceding elements then move the slot |
| FlexWidths.WidthULeast | Common/flatbuffers/flexbuffers.h:188-198 | WidthU is the least width that holds the number |
| FlexWidths.WidthILeast | Common/flatbuffers/flexbuffers.h:200-203 | WidthI is the least width that holds the number with its sign |
| FlexWidths.SignedRoundTrip | Common/flatbuffers/flexbuffers.h:138-152 | Sign extension undoes the truncation, at every width the number fits |
| FlexWidths.PackedRoundTrip | Common/flatbuffers/flexbuffers.h:867-869 | Type and width are recovered from the packed type byte |
| FlexVectors.ElementSuits | Common/flatbuffers/flexbuffers.h:1606-1651 | With the largest width over all elements every element suits its slot, so the assertion of WriteOffset holds although the index is over-estimated for the values of a map |
| FlexVectors.KeysSuit | Common/flatbuffers/flexbuffers.h:1614-1619 | The same for the offset to a map's keys |
| FlexVectors.VectorWidthLeast | Common/flatbuffers/flexbuffers.h:1606-1639 | The width chosen for a vector is the least at which its length and all its elements can be written |
| FlexVectors.ElementsRead | Common/flatbuffers/flexbuffers.h:880-886 | Every element of a finished vector or map reads as the tree its value stands for |
| FlexVectors.KeyVectorReads | Common/flatbuffers/flexbuffers.h:888-893 | A map's key vector reads as the names of the keys, in order |
| FlexVectors.KeysFound | Common/flatbuffers/flexbuffers.h:344-351 | The prefix of a map leads to its keys and their width |
| FlexLayout.SlotReads | Common/flatbuffers/flexbuffers.h:1564-1573 | What WriteAny stored in a slot it suits reads back: scalars with their sign, all else through the offset |
| FlexRoundTrip.AddStands | Common/flatbuffers/flexbuffers.h:1073-1223 | Building a tree of any shape leaves one value on the stack, which stands for it |
| FlexRoundTrip.KeyStands | Common/flatbuffers/flexbuffers.h:1073-1089 | A key, new or taken from the pool, leads to its characters up to the first zero |
| FlexRoundTrip.StringStands | Common/flatbuffers/flexbuffers.h:1094-1111 | A string, new or taken from the pool, leads to its bytes with the right length width |
| FlexSharing.SharedKeys | Common/flatbuffers/flexbuffers.h:1073-1089 | With shared keys, whatever is built between them, two keys lie at one place if and only if they are equal up to their first zero, and then the second writes and pools nothing |
| FlexSharing.SharedStrings | Common/flatbuffers/flexbuffers.h:1094-1111 | With shared strings, whatever is built between them, two strings lie at one place if and only if they are equal, and then the second writes and pools nothing; the places in the pool ascend, as they do from the empty builder on (AddGrows) |
| FlexSharing.AddGrows | Common/flatbuffers/flexbuffers.h:1073-1223 | Building any tree loses nothing written or pooled before, and keeps the places in the pool of strings ascending |
| FlexExact.KeyExact | Common/flatbuffers/flexbuffers.h:1073-1089 | A key is written with one zero behind it exactly if keys are not shared or no equal one is pooled |
| FlexExact.StringExact | Common/flatbuffers/flexbuffers.h:1094-1111 | A string is written as a blob with one zero behind it, and pooled if strings are shared, exactly if they are not shared or no equal one is pooled |
| FlexExact.TypesExact | Common/flatbuffers/flexbuffers.h:1654-1660 | Behind the elements each byte of type holds the type of its element and, for a scalar, the vector's width, else its own |
| FlexExact.BlobExact | Common/flatbuffers/flexbuffers.h:1575-1583 | A string or blob to the byte: the least zeros that align its length, the length in the least width that holds it, the bytes and the trailing zeros |
| FlexExact.VectorExact | Common/flatbuffers/flexbuffers.h:1606-1662 | A vector or map to the byte count: the least zeros that align it, its prefix, one slot an element and one byte of type each |
| FlexExact.EndVectorAsked | Common/flatbuffers/flexbuffers.h:1606-1635 | A vector's width is the largest asked for by the flags, its length or an element at its index |
| FlexExact.EndMapAsked | Common/flatbuffers/flexbuffers.h:1196-1223 | A map's keys and its values each have the largest width asked for by the flags, the length, the keys or an element, with two slots counted for each entry before it |
| FlexExact.FinishExact | Common/flatbuffers/flexbuffers.h:1403-1419 | The root is written in the scalar's own width or the least width in which the offset to the value fits, behind the least zeros that align it, and that width is the last byte |
| FlexExact.ScalarsNarrow | Common/flatbuffers/flexbuffers.h:1007-1037 | Scalars are kept in the least width that holds them |
| FlexRoundTrip.BlobReads | Common/flatbuffers/flexbuffers.h:1575-1583 | The length in front of a blob reads back in the width recorded for it |
| FlexRoundTrip.EndVectorStands | Common/flatbuffers/flexbuffers.h:1166-1172 | The closed vector stands for its elements, in order |
| FlexRoundTrip.EndMapStands | Common/flatbuffers/flexbuffers.h:1174-1223 | The closed map stands for its entries sorted by key |
| FlexRoundTrip.FinishReads | Common/flatbuffers/flexbuffers.h:1403-1419 | GetRoot finds the value, type and width Finish wrote last |
| FlexBuilder.Builder.Align | Common/flatbuffers/flexbuffers.h:1430-1435 | Zeros up to a multiple of the width |
| FlexBuilder.Builder.WriteOffset | Common/flatbuffers/flexbuffers.h:1458-1462 | How far back the target lies; its assertion is the precondition, which CreateVector meets |
| FlexBuilder.Builder.ElemWidth | Common/flatbuffers/flexbuffers.h:1525-1552 | The width a value asks for at an index, as ElemWidthLoop finds it |
| FlexBuilder.Builder.ChooseWidth | Common/flatbuffers/flexbuffers.h:1612-1635 | The loop takes the largest width that the length, the keys and all elements ask for |
| FlexBuilder.Builder.CreateVector | Common/flatbuffers/flexbuffers.h:1606-1662 | Width, prefix, elements and types in place, as the function ElementsRead is about; no assertion fails |
| FlexBuilder.Builder.Key | Common/flatbuffers/flexbuffers.h:1073-1089 | Writes a key, looks it up among the pooled ones and takes it back, or pools it |
| FlexBuilder.Builder.String | Common/flatbuffers/flexbuffers.h:1094-1111 | Writes a string, looks it up and takes it back, or pools it |
| FlexBuilder.Builder.CreateBlob | Common/flatbuffers/flexbuffers.h:1575-1583 | Writes the length in as few bytes as hold it, the data and the trailing zeros |
| FlexBuilder.Builder.EndVector | Common/flatbuffers/flexbuffers.h:1166-1172 | Replaces the elements on the stack by their vector |
| FlexBuilder.Builder.EndMap | Common/flatbuffers/flexbuffers.h:1174-1223 | Replaces keys and values on the stack by their map, as the function EndMapStands is about |
| FlexBuilder.Builder.Finish | Common/flatbuffers/flexbuffers.h:1403-1419 | Writes root value, type and width |
| ConcurrentAdd.StepKeeps | Project1/WorkerThread.cpp:49-91 | Every atomic step of every thread keeps the invariant of the list, and the chain only ever grows at its end |
| ConcurrentAdd.RunSafe | Project1/WorkerThread.cpp:49-91 | In every interleaving of k threads on a list within the limit: the list from the head is whole, _tail is its last or second-last node, it never exceeds the limit by more than k - 1, and with no call under way the count is its length |
| ConcurrentAdd.NothingLost | Project1/WorkerThread.cpp:49-91 | What is listed after some of the steps is listed, at the same place, after more |
| ConcurrentCalls.CallAdds | Project1/WorkerThread.cpp:73-87 | In every interleaving a call past its linking step, counted or not, has a node with the socket it was given in the list |
| ConcurrentCalls.ClientsConserved | Project1/WorkerThread.cpp:49-91 | With no call under way the sockets listed are those of the start and those of the calls let in, each as often as it was given |
| ConcurrentCalls.RunServes | Project1/WorkerThread.cpp:56-66 | Every call under way works on the node allocated for its socket |
| ConcurrentAdd.BoundReached | Project1/WorkerThread.cpp:51-57 | From every list that is not full, k threads can reach the limit plus k - 1, so the bound of RunSafe is exact |
| ConcurrentAdd.LimitKeptExactly | Project1/WorkerThread.cpp:51-57 | Every interleaving keeps the limit if and only if there is one thread or the list is full from the start |
| ConcurrentProgress.AloneFinishes | Project1/WorkerThread.cpp:58-90 | Wherever an interleaving has come to, a thread in a call that from then on runs alone, with no spurious failure, has finished it within twelve steps, whatever the others left half-done, and its socket is listed; if it had not linked its node yet, _tail is at the end of the list then |
| ConcurrentProgress.StepNearer | Project1/WorkerThread.cpp:58-90 | Every step of a thread alone, helping included, leaves it fewer steps to go |
| ConcurrentEmpty.EmptyKeptExactly | Project1/WorkerThread.cpp:58-69 | From an empty list as many clients are listed as were let in, whenever no call is under way, in every interleaving if and only if there is one thread; then it is those clients (OneThread) |
| ConcurrentEmpty.TwoThreadsLose | Project1/WorkerThread.cpp:58-69 | Two threads that both find no tail: both clients are let in, the list is left with the second alone, and the count is 1 |
| ConcurrentEmpty.OneThread | Project1/WorkerThread.cpp:49-91 | One thread from an empty list: the list is at every time the clients let in, in order, but for one not linked yet |
| ConcurrentEmpty.StepListed | Project1/WorkerThread.cpp:73-87 | In every interleaving a list grows exactly by the step that links a node, at its end and by that node |
| ClientList.WorkerThread.AddClient | Project1/WorkerThread.cpp:49-91 | On the heap list: the client goes to the end, also after the list was emptied, or is turned away with its socket closed when the list is full |
| ClientList.WorkerThread.RemoveSocketFromList | Project1/WorkerThread.cpp:93-148 | Unlinks the first node of the socket, wherever it is, keeps head, tail and count in order, and reports the disconnect before closing the socket |
| ClientList.WorkerThread.HasClient | Project1/WorkerThread.cpp:222-232 | Walking the list agrees with membership |
| ClientList.WorkerThread.FindNode | Project1/WorkerThread.cpp:96-104 | The walk stops at the first node with the socket and knows the one before it |
| ClientList.RunConserves | Project1/WorkerThread.cpp:49-148 | Over every sequence of arrivals and departures every client is in the list or has had its socket closed, once; closed are those dropped and those turned away; with a queue the database is told of exactly those dropped, of each once and directly before its socket is closed |
| Framing.Exchange | TestClient/ClientMain.cpp:119-151 | Both ends, by the events they meet: if the send calls take the frames and the receive calls are in time, the queue is the first packets, in order; and all of them if no event ends the connection, enough of them bring bytes, and there is a call for each packet and each wait |
| Framing.ServedInStep | Project1/WorkerThread.cpp:306-397 | Round trip: whatever chunk sizes and interruptions, if no call drops bytes the queue is at every time the packets sent so far received, in order, each once, the rest is still to come, and once the stream of a connected client is empty all packets are on the queue |
| Framing.AllArrive | Project1/WorkerThread.cpp:306-397 | If no event ends the connection, enough bring bytes and all are in time, then in whatever pieces the bytes come and however often a call waits, one call for each packet and each wait puts all packets on the queue |
| Framing.CallOutcome | Project1/WorkerThread.cpp:306-397 | Every call on a stream in step delivers the next packet, finds nothing, loses the connection in order, or drops bytes; which of these is a function of the events: part of a header exactly if the first one brings fewer than four bytes, a packet given up exactly if five events in a row bring nothing before its last byte |
| Framing.DropsExactly | Project1/WorkerThread.cpp:306-397 | Bytes are dropped over a run of calls if and only if the events are not in time: some header read brings fewer than four bytes, or inside some packet five events in a row bring nothing |
| Framing.BodyByEvents | Project1/WorkerThread.cpp:348-386 | The receive loop delivers, gives up or loses the connection exactly as the events say: a wait too long before the last byte, an end before the last byte, or neither |
| Framing.PartialHeaderMisleads | Project1/WorkerThread.cpp:310-329 | A header of which one byte arrives: the byte is dropped, the rest is taken for another header, the packet is lost and the connection kept |
| Framing.ShortHeaderSent | TestClient/ClientMain.cpp:119-151 | A header of which one byte is taken: the packet follows it and success is reported |
| Framing.DroppedBytesMislead | Project1/WorkerThread.cpp:362-386 | After dropped bytes the connection is kept and a packet that was never sent is enqueued |
| Framing.Endpoint.ProcessClientData | Project1/WorkerThread.cpp:306-397 | The receive loop in place, ending by bytes left and retries left, does what CallOutcome is about |
| Framing.Endpoint.ReceivePacket | TestClient/ClientMain.cpp:153-190 | A packet is returned exactly if the first event brings some of a header, the number it makes, a short header filled up with zeros, is in 1..65536, and the next events all bring bytes until that many of the stream have come; it is those bytes. If the stream starts with a packet's frame and the header arrives whole, it is that packet |
| Framing.ProcessAnyStream | Project1/WorkerThread.cpp:306-397 | A call of the server on any stream, in step or not: only frames of 1 to 65536 bytes are delivered, as they are; a header of zero is passed over, one out of range loses the connection, a part of one is dropped; nothing else is queued |
| Framing.Sender.SendPacket | TestClient/ClientMain.cpp:119-151 | Success means the packet went out whole behind what was taken of the header, exactly if the first send event takes some of the header and the next ones take the packet; fewer than four header bytes exactly if the first event takes fewer; a failure leaves on the wire exactly what was taken before the first event that took nothing, and gives the connection up |
| Framing.Sender.SendToClient | Project1/WorkerThread.cpp:150-220 | By the events alone: true exactly if the client is known, the data not empty, the first event takes some of the header and the next ones take all data; on the wire is exactly what was taken; the client is removed exactly if a call meets an error, and kept when it stays blocked |
| Framing.SentExactly | Project1/WorkerThread.cpp:189-213 | All data is taken if and only if some number of events takes it with no error among them and never three full buffers in a row before the last |
| Framing.TwoBlocksNotThree | Project1/WorkerThread.cpp:186-213 | Two full buffers in a row are waited out, again after bytes were taken; a third in a row ends the sending without an error |
| Framing.Sender.SendData | Project1/WorkerThread.cpp:183-213 | The loop over the data stops where those events say, with exactly the bytes taken by then on the wire |
| Framing.Sender.SendAll | TestClient/ClientMain.cpp:119-151 | All frames go out one after the other exactly if the send calls take them, each header at once |
| Framing.HeaderRoundTrip | Project1/WorkerThread.cpp:166-167 | The length in network order reads back as itself |
| Sessions.SessionsAreLogins | Project1/DatabaseThread.cpp:369-523 | In every run from a fresh start a user is online on a socket if and only if some login of that user there succeeded with no logout, disconnect or second login since |
| Sessions.ServersAreStarted | Project1/DatabaseThread.cpp:903-1142 | In every run a game server is active for a socket if and only if it was created or reactivated there with no disconnect, closing or owner's logout since |
| Sessions.RunConsistent | Project1/DatabaseThread.cpp:525-574 | In every run usernames stay unique, sessions belong to users and every offline session has socket 0 |
| Sessions.SessionStep | Project1/DatabaseThread.cpp:369-454 | What one request of any kind does to one session, both ways |
| Sessions.ServerStep | Project1/DatabaseThread.cpp:1063-1066 | What one request of any kind does to one server's activity, both ways |
| Sessions.NamesKeptUnless | Project1/DatabaseThread.cpp:997-1107 | A request keeps the names of active servers unique except, exactly, when an owner rejoins an inactive server whose name another active one has |
| Sessions.LoginReplies | Project1/DatabaseThread.cpp:369-454 | A login is answered by who has the name and password and whether that user is online, each reply if and only if |
| Sessions.AccountLogsIn | Project1/DatabaseThread.cpp:525-574 | An account is made if and only if its name is free, and its user can then log in with the password |
| Sessions.AccountLasts | Project1/DatabaseThread.cpp:369-574 | An account made at any request of a run can be logged into with its password after whatever requests follow: the login succeeds, or ends another session of the user |
| Sessions.RunKeepsUsers | Project1/DatabaseThread.cpp:538-542 | No run of requests changes or takes away a user's row |
| Sessions.UserRows | Project1/DatabaseThread.cpp:538-542 | An account made is one row more, with the name and password asked for; every other row of users stays |
| Sessions.RunKeepsServers | Project1/DatabaseThread.cpp:903-957 | In every run a game server keeps the name, password, owner and numbers of players it was created with |
| Sessions.ServerRows | Project1/DatabaseThread.cpp:903-957 | A server is created exactly if no active one has its name, as the request asks; every other row keeps all but its activity, and the socket of its owner unless its owner starts it |
| Sessions.SessionRows | Project1/DatabaseThread.cpp:525-574 | A session row is made exactly by making an account or by a login; requests about servers leave the sessions alone |
| Sessions.CloseReplies | Project1/DatabaseThread.cpp:1109-1142 | A server is closed exactly by its owner while it is active, and any other request to close one is refused; a logout succeeds |
| Sessions.JoinReplies | Project1/DatabaseThread.cpp:1035-1093 | Who may join a server, and when each refusal is given: its owner always, others an active one with room, by its password |
| Sessions.RefusalChangesNothing | Project1/DatabaseThread.cpp:284-365 | A refused request changes no table; a denied login ends the other session and changes nothing else |
| Sessions.DatabaseThread.ProcessTask | Project1/DatabaseThread.cpp:284-365 | One handler per kind of request, updating the tables step by step and queueing one reply, does what the run theorems are about |
| Sessions.DatabaseThread.RunTasks | Project1/DatabaseThread.cpp:247-282 | The tasks of the queue in order, each answered by one reply, the end of a connection by none |
| Sessions.DatabaseThread.HandleLogin | Project1/DatabaseThread.cpp:369-454 | A second login ends the first session and is itself turned away |
| Sessions.DatabaseThread.HandleLogout | Project1/DatabaseThread.cpp:456-523 | Stops the user's servers and ends the session |
| Sessions.DatabaseThread.HandleCreateAccount | Project1/DatabaseThread.cpp:525-596 | A new name gets a user and an offline session, a taken one fails |
| Sessions.DatabaseThread.HandleCreateServer | Project1/DatabaseThread.cpp:903-957 | A server is created active unless an active one has its name |
| Sessions.DatabaseThread.HandleJoinServer | Project1/DatabaseThread.cpp:997-1107 | The owner reactivates, others are asked for room and password, in the order of the checks |
| Sessions.DatabaseThread.HandleCloseServer | Project1/DatabaseThread.cpp:1109-1142 | Only the owner closes, and only an active server |
| Sessions.DatabaseThread.HandleClientDisconnected | Project1/DatabaseThread.cpp:1183-1228 | The socket's servers are stopped and its sessions ended |
| Trading.NoProfit | Project1/DatabaseThread.cpp:1230-1402 | Over any sequence of purchases and sales, with any pattern of failing queries, gold plus inventory at base price never rises for any user, if no product of a purchase reaches 2^32 |
| Trading.BuyingIsFair | Project1/DatabaseThread.cpp:1256-1280 | A purchase leaves gold plus inventory as it was if and only if price times count is below 2^32; otherwise it raises it |
| Trading.PurchaseTrades | Project1/DatabaseThread.cpp:1230-1289 | A purchase succeeds exactly if its queries do, the rows exist and the gold is enough; then gold and count change by the price and the number and no other row does, else nothing changes |
| Trading.PurchaseReplies | Project1/DatabaseThread.cpp:1230-1289 | Each answer to a purchase if and only if, with or without a transaction left open before; success replies the gold less the price |
| Trading.SaleTrades | Project1/DatabaseThread.cpp:1342-1373 | A sale takes the items, with their row if none is left, pays half the base price for each and touches no other row |
| Trading.SaleReplies | Project1/DatabaseThread.cpp:1291-1402 | Each answer to a sale if and only if, with or without a transaction left open before; success replies the gold that is in the row then, which is the gold before and the proceeds |
| Trading.BuyThenSell | Project1/DatabaseThread.cpp:1230-1402 | Buying and selling the same number back restores the inventory and costs half the price, rounded up, for each piece |
| Trading.CutMakesProfit | Project1/DatabaseThread.cpp:1256-1258 | At 65536 pieces of 65536 each the product is cut to nothing, and the sale of all but one of them pays 2^31 - 2^15 |
| Trading.SaleAllOrNothing | Project1/DatabaseThread.cpp:1322-1401 | Under every pattern of failures the sale is made whole exactly when every query of it succeeds, otherwise nothing is committed; a transaction stays open exactly when a query and the rollback both fail |
| Trading.SoldButFailed | Project1/DatabaseThread.cpp:1375-1401 | A sale that was committed is answered with failure exactly when the gold cannot be read back |
| Trading.HalfSaleCommitted | Project1/DatabaseThread.cpp:1322-1373 | A concrete half-made sale made permanent by the next transaction |
| Trading.OpenIsCommitted | Project1/DatabaseThread.cpp:1270-1397 | Whatever transaction was left open, the next trade that starts one commits it, also when that trade fails; a trade that starts none changes nothing |
| Trading.HalfSaleStaysOpen | Project1/DatabaseThread.cpp:1342-1400 | A sale whose payment and rollback fail leaves open exactly the state with the items taken and no gold paid |
| Trading.DatabaseThread.HandleShopSell | Project1/DatabaseThread.cpp:1291-1402 | The queries one by one, the first failure ending in a rollback, do what SaleAllOrNothing is about |
| Trading.DatabaseThread.HandleShopPurchase | Project1/DatabaseThread.cpp:1230-1289 | The check against the gold and the one transaction do what BuyingIsFair is about |
| Utf8.EncodeDecode | Common/flatbuffers/util.h:499-568 | For every code up to 0x7FFFFFFF with any bytes behind: FromUTF8 of ToUTF8 returns the code and takes exactly the bytes written if it is a code point of section 3 of RFC 3629 and no surrogate, and fails otherwise |
| Utf8.DecodeEncode | Common/flatbuffers/util.h:524-568 | Whenever FromUTF8 succeeds, ToUTF8 of the result is exactly the bytes taken: no other way of writing a code point is accepted (section 3 of RFC 3629) |
| Utf8.ToUTF8 | Common/flatbuffers/util.h:499-522 | The loop over one to six bytes finds the shortest form and writes it |
| Utf8.LongForms | Common/flatbuffers/util.h:499-522 | The forms of five and six bytes keep every bit of the code, behind their lead bits and in continuation bytes |
| Utf8.FromUTF8 | Common/flatbuffers/util.h:524-568 | The counting and gathering loops compute the decoding the two theorems are about |
| Utf8.LimitsAreShifts | Common/flatbuffers/util.h:505-515 | The limits and lead bytes of the forms are the shifts and masks of the loop |

## Left out

- Operations whose builder assertions fail: `Run` and `FinishRun` are `None` then, and the theorems speak of the runs in which no assertion fails (a table of 64K or more, a buffer of 2^31 bytes or more); `BuildSizes.BuildSucceeds` says when none does. Nesting one object in another cannot be expressed.
- `Run` and `FinishRun` are stricter than the builder's assertion in one respect: they also end when an operation leaves more than 2^31 - 1 bytes, where the assertion still lets an operation's last four bytes pass the limit; the methods of `Builder.FlatBufferBuilder` ask only what the assertion asks, except that padding alone (`StartVector`) must stay within the limit and `EndTable` must fit with its vtable before sharing takes it back.
- FlatBuffers features that the packets do not use: structs, `force_align` above 8 bytes, required fields, nested buffers, vectors of unions, 64-bit offsets, in-place mutation (`SetField`, `Mutate`), sorted vectors and `LookupByKey`, custom allocators, moves and swaps, big-endian machines. They are variants of what is proved.
- Floating point: a float field is its bit pattern, so a negative zero counts as different from the default 0.0, where the C++ comparison takes them for equal. FlexBuffers floats and doubles are not modelled.
- FlexBuffers: indirect numbers, typed and fixed typed vectors of scalars, conversions between types, mutation, reuse of values and `Undo`; they need no argument the vectors and maps do not already need.
- FlexBuffers duplicate keys: the flag `has_duplicate_keys_` depends on which pairs `std::sort` happens to compare. Sorting itself is modelled as stable insertion; `std::set` lookups are linear searches by the same order, `std::bsearch` is a binary search.
- The FlexBuffers verifier: its key check stops at the first non-zero byte instead of the terminator, so soundness does not follow from the code.
- The FlatBuffers verifier's size tracking and nested buffers, which are off for these packets.
- FlexBuilder.Encode: buffers of 2^63 bytes or more, and more than 2^59 values on the stack, which no allocation reaches; the slot arithmetic is not shown to stay below 2^64 there.
- RootPointer.GetBufferStartFromRootPointer: for a buffer on a 4-aligned address, as positions are counted from its start; reading in front of the buffer gives `None`, where the code's read is undefined.
- Bytes.PaddingIsLeast: the size argument is an unbounded number; the 64-bit wrap of its negation is modelled.
- ConcurrentAdd.RunSafe: compare-exchange may fail spuriously as the weak one does; memory reordering, removal by another thread and node reclamation are not modelled, and the list is not empty at the start (`ConcurrentEmpty` is about that case).
- ClientList.WorkerThread.RemoveSocketFromList: one thread at a time, with a compare-exchange that succeeds; freed nodes are simply no longer in the list.
- Framing: sockets, `select`, sleeps and logging are replaced by a script that says what each call returns; the stale error code after an orderly close is part of that script. What a send or receive call moves is any number of bytes from one up to what is wanted and there.
- Sessions.RunConsistent and the other session theorems: queries succeed, users are active, `game_servers` rows are active when inserted, as their defaults in `DBQuary.txt` say. The validation of requests (`Validate*` in `ServerPacketManager.cpp`), nicknames, addresses and times are left out.
- Trading.DatabaseThread.HandleShopPurchase: its multi-statement query is one atomic transaction; SQL text is not modelled. The columns are signed 32-bit: a write past that range is one of the failures of its query, not computed from the numbers.
- The remaining handlers (player data, items, monsters, chat, shop lists, server lists, saving): each is one query and one reply.
- `LockFreeQueue.h`, connection handling, logging, the console menu and the MySQL connector: input and output, or not part of this model.
- `EscapeString` and the number formatting of `util.h`: nothing in the repository reads their output back.
- UserEvents.EventsOk: the tables are transcribed from the generated `Verify` chains; the generated accessors' names and the `_as_` casts are not.
