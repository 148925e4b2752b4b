# Verified models of the bundler and its libraries

A Dafny project that models the parts of this repository where a mistake would be hard to
see, and proves what they are for. Everything is checked by `dafny verify dfyconfig.toml`;
there is no code to run.

Three groups of code and two single algorithms are modelled.

**The AMQP 0-9-1 client** (`src/github.com/streadway/amqp`). `AmqpFields` and
`AmqpReader` are the codec for nested tables and arrays; `AmqpSchema` is the code generator's
grouping of fields and the codec its templates produce; `AmqpFrames` is the frame codec with
property flags, `AmqpInstances` four methods on top of it, and `AmqpWire` says what the octets
of all these are; `AmqpChannel` is cutting a body into frames and the three-state machine that
puts it together again; `AmqpDemux` is the registry of channels in front of those machines,
with an end-to-end theorem from messages through octets to dispatched messages.
`AmqpConfirms`, `AmqpAllocator` and `AmqpConsumers` are the confirmation resequencer, the
channel numbers and the delivery queue. Frames follow sections 4.2.3, 4.2.5.5 and 4.2.6 of
the AMQP 0-9-1 specification; field letters are those of read.go.

**The bundler's store** (`src/siphon/bundler`). `BundlerStore` has the rows, S3 and memcache,
where every external call may fail, with or without effect; `BundlerPush` reconciles a
listing against the rows; `BundlerSubmit` snapshots an app and looks at all later runs;
`BundlerTemp` builds the project directory on a file system with directories in it;
`BundlerRace` interleaves the single steps of concurrent cache calls.

**The Postgres driver** (`src/github.com/lib/pq`). `PqListener` is the two-goroutine LISTEN
connection as a state machine; `PqConn` is request and response with the one-message slot;
`PqBytea`, `PqCopy`, `Hstore` and `PqOpts` are the text forms.

**Single algorithms.** `GodocFormat` (godoc's `FormatSelections`) and `S3Multi` (multipart
`PutAll`).

Code that updates things in place is modelled by classes and loops whose contracts tie them
to functions; theorems over all runs are about those functions or about state machines.
Writers that walk a Go map pick keys in any order.

## What the code does not do

Some properties one would expect are false of the code. The model keeps the code; the
lemmas say exactly when the property holds, and give an input where it does not.

- The rows of a query that is cut short look like all the rows, because the loop over them
  does not ask for their error, and `handle` drops the error of a query that fails. A push
  that succeeds leaves exactly the listing if and only if the fetch had shown all rows
  (`BundlerPush.PushHandler.Reconcile`, an input in `BundlerPush.FetchFailureKeepsRow`). A
  removal leaves the blobs other files need if and only if the fetch had shown one of those
  files (`BundlerPush.PushHandler.RemoveOne`, `BundlerPush.CutFetchLosesBlob`). A submission
  that succeeds has all the rows if and only if its fetch was whole
  (`BundlerSubmit.SubmitHandler.Submit`, `BundlerSubmit.HalfSnapshot`).
- Copying the blobs of a submission and making its rows fetch separately. A row has its blob if
  and only if its hash was among those fetched for copying, or the blob was there before
  (`BundlerSubmit.SubmitHandler.Submit`); when the first fetch is cut short and still shows
  the Siphonfile, all steps succeed and a row is without its blob
  (`BundlerSubmit.RowWithoutBlob`).
- A submission with some of its rows is never completed (`BundlerSubmit.PartialIsStuck`). Rows
  are added only under an id that no row of any app has, and only for an app with a Siphonfile;
  over services that work they are added if and only if all that a submission needs is there
  (`BundlerSubmit.SubmitHandler.Submit`).
- The footer of an Android submission is stored under the old name, which a pull falls back to.
  A pull of a submission finds the footer if and only if it is for the same platform or the
  submission is an Android one, so an iOS client is given an Android footer
  (`BundlerSubmit.FooterPersists`).
- Writing the project directory is not checked. It holds every file if and only if no name is
  a directory of another one and names with one path have one content
  (`BundlerTemp.FilesToTemp`); otherwise what it holds depends on the order of a map
  (`BundlerTemp.OrderMatters`, `BundlerTemp.Colliding`).
- With concurrent calls memcache need not stay within S3. In runs without faults it does as
  long as no call changes S3 at a key that another call is about to fill in
  (`BundlerRace.SafeRunsStayWithin`). After a step that does, the calls under way can end up at
  rest with memcache outside of S3 under that key, by themselves and without a fault, if and
  only if they are not about to put back what was deleted (`BundlerRace.UnsafeGoesStale`; a run
  from stores at rest in `BundlerRace.StaleAfterDelete`). The content is right in any case.
- A `Set` or `Delete` that S3 reports as failed though it took effect leaves memcache outside
  of S3 exactly when memcache had the key with another content (`BundlerStore.Store.Set`,
  `BundlerStore.Store.Delete`).
- `Multiple` does not go on with confirmations that came early. The expected tag is the least
  unconfirmed one if and only if the last confirmation was single, or was multiple and the tag
  it led up to had not come early (`AmqpConfirms.LeastExactly`); the next single confirmation
  releases what waits (`AmqpConfirms.EarlyTagWaits`).
- `Multiple` does not look at the confirmations that came early either. Every tag is reported
  with the flag the server gave to it if and only if no multiple confirmation passed over one
  that had come early with another flag (`AmqpConfirms.OwnFlagsExactly`); else a nack is
  reported as an ack (`AmqpConfirms.NackOverridden`).
- A short string of 256 bytes or more is cut by the cast of its length
  (`Octets.StringLimit`).
- The array reader takes an EOF inside of a field for the end of the array. It reads all of
  the octets if and only if they are whole fields, and succeeds if and only if the first field
  that cannot be read fails with EOF (`AmqpFields.ArrayEnds`; where the cut must be for that,
  in values of any depth, `AmqpFields.FieldEof`; a bare type octet in
  `AmqpFields.CutFieldIsDropped`). A table that stops behind a key empties the array around it
  and leaves what follows in the stream (`AmqpFields.CutTableSpills`).
- On content for channel 0 or a method for a closed channel the reader goroutine waits for a
  reply that only it could read: the connection is not shut down, it stops
  (`AmqpDemux.Connection.Receive`).
- The tuned channel maximum is a channel number unless the client asks for a negative one
  and the server sets a limit (`AmqpAllocator.TunedMaxFits`).
- `FormatSelections` shifts 1 by the selection's number, so selections from the 64th on have
  no bit (`GodocFormat.BitsComplete`).
- `ParseURL` escapes neither keys nor white space other than blanks. A list of options
  survives if and only if no key has white space or "=" in it and no value white space other
  than blanks (`PqOpts.JoinedExactly`).
- An hstore text of white space alone scans to no pairs if and only if it is not longer than one
  character; else there is a pair of empty strings (`Hstore.BlankText`).
- `copyin.Close` neither empties the buffer nor says that the statement is closed: called
  twice it sends the buffer twice. Each row is sent once if and only if nothing was buffered or
  the copying was ended by `Exec` (`PqCopy.CloseTwice`). What is sent the second time comes
  after CopyDone, when the server has left copy-in mode, and the second call then waits for an
  end that was reported once and is already taken.

## Model

| member | source | states |
|---|---|---|
| `Octets.StringLimit` | src/github.com/streadway/amqp/write.go:239-269 | a string with a length of k octets is read back if and only if its length fits them |
| `Octets.ReadWriteString` | src/github.com/streadway/amqp/read.go:93-117 | what the string writers write is read back before any suffix, which is left untouched |
| `AmqpFields.WriteField` | src/github.com/streadway/amqp/write.go:287-396 | for every nested value and every order of map keys, reading the octets followed by any suffix gives the value and leaves that suffix |
| `AmqpFields.WriteTable` | src/github.com/streadway/amqp/write.go:398-411 | the same for a whole table: every table survives, before any suffix |
| `AmqpFields.WriteShortstr` | src/github.com/streadway/amqp/write.go:239-253 | a short string within the limit is read back before any suffix |
| `AmqpReader.Stream.Field` | src/github.com/streadway/amqp/read.go:167-255 | the recursive reader terminates on every input and returns, value, error and bytes left, what the reading function says |
| `AmqpReader.Stream.Table` | src/github.com/streadway/amqp/read.go:265-293 | emptying the nested buffer entry by entry is the reading function; later keys win |
| `AmqpReader.Stream.Array` | src/github.com/streadway/amqp/read.go:295-318 | reading until a field reports EOF is the reading function, with what was left of the limited reader still to be read |
| `AmqpReader.Stream.Scalar` | src/github.com/streadway/amqp/read.go:119-255 | reading numbers, decimals, strings and byte arrays piece by piece from the stream is the reading function, with the same error and rest when a piece is missing |
| `AmqpFields.ItemsAreFields` | src/github.com/streadway/amqp/read.go:295-318 | for any octets the items reader gives the fields before the first that cannot be read, if that one fails with EOF, and else its error |
| `AmqpFields.ArrayEnds` | src/github.com/streadway/amqp/read.go:295-318 | an array is read if and only if that first failure is EOF; nothing was dropped if and only if the octets are a run of whole fields |
| `AmqpFields.ScalarEof` | src/github.com/streadway/amqp/read.go:119-255 | a scalar fails with EOF exactly when it is cut off between the reads it is made of |
| `AmqpFields.FieldEof` | src/github.com/streadway/amqp/read.go:167-318 | a field of any type and depth fails with EOF exactly when it is cut off at such a place: an array only before its length, a table where its length, one of its keys or one of its values is |
| `AmqpFields.CutFieldIsDropped` | src/github.com/streadway/amqp/read.go:295-318 | an array that ends in a bare type octet, of any type with a value, loses that field without an error |
| `AmqpFields.CutTableSpills` | src/github.com/streadway/amqp/read.go:265-318 | an array that begins with a table cut off behind a key is read as an empty array, with all that follows the table still in the stream |
| `AmqpSchema.Fieldsets` | src/github.com/streadway/amqp/spec/gen.go:377-408 | the compaction in place keeps all fields in order and makes maximal runs of one kind |
| `AmqpSchema.GroupFlattens` | src/github.com/streadway/amqp/spec/gen.go:377-408 | grouping any field list keeps every field, in order |
| `AmqpSchema.GroupIsMaximal` | src/github.com/streadway/amqp/spec/gen.go:377-408 | it makes non-empty runs of one kind whose neighbours differ |
| `AmqpSchema.RunsUnique` | src/github.com/streadway/amqp/spec/gen.go:377-408 | maximal runs are determined by the fields: no other grouping has these properties |
| `AmqpSchema.WriteArgs` | src/github.com/streadway/amqp/spec/gen.go:263-348 | for every schema with at most one run of at most eight bits, generated `write` then `read` gives back the arguments before any suffix |
| `AmqpSchema.PackBits` | src/github.com/streadway/amqp/spec/gen.go:263-348 | bit i of the packed octet is argument i of the run, and the octet fits |
| `AmqpFrames.BuildMask` | src/github.com/streadway/amqp/write.go:68-130 | a property's flag is set exactly when its value is not the zero value, and flags of no property are not set |
| `AmqpFrames.WriteProps` | src/github.com/streadway/amqp/write.go:131-200 | the second pass writes what reading under that mask gives back, absent properties as zero values |
| `AmqpFrames.WritePayload` | src/github.com/streadway/amqp/write.go:30-208 | every payload, method, header, body or heartbeat, is read back as its frame |
| `AmqpFrames.WriteFrame` | src/github.com/streadway/amqp/write.go:210-237 | every sendable frame is read back before any suffix; a body frame takes its body and 8 octets |
| `AmqpFrames.WriteFrames` | src/github.com/streadway/amqp/read.go:46-91 | reading the octets of any list of frames returns that list and then a clean EOF |
| `AmqpInstances.InstancesFit` | src/github.com/streadway/amqp/spec091.go:765-860 | the bit fields of exchange.declare, basic.publish, basic.deliver and basic.ack fit the shared octet |
| `AmqpInstances.WriteInstance` | src/github.com/streadway/amqp/spec091.go:1930-2365 | each of the four under its own id, with any arguments of its types, is read back from its frame |
| `AmqpWire.PutInOrder` | src/github.com/streadway/amqp/write.go:210-237 | numbers are written in network order: the octets, the first counting most, have that value |
| `AmqpWire.ScalarsOnWire` | src/github.com/streadway/amqp/read.go:150-255 | every value that holds no others is read from the letter and octets written out here, so what is written for it is just these |
| `AmqpWire.ContainersOnWire` | src/github.com/streadway/amqp/read.go:265-318 | arrays and tables are read from their letter, the length of what is inside, and that |
| `AmqpWire.OddOnWire` | src/github.com/streadway/amqp/read.go:167-255 | any octet but 0 is true, a byte array of negative length panics, any other letter is a syntax error |
| `AmqpWire.FramesOnWire` | src/github.com/streadway/amqp/read.go:46-91 | a frame is read from its type 1, 2, 3 or 8, channel, length, payload and 0xCE |
| `AmqpWire.FrameIsChecked` | src/github.com/streadway/amqp/read.go:46-91 | from any octets a frame is taken only with 0xCE behind its payload, of the type and channel named in front, a body of the length named there, a heartbeat without payload, a method of the schema |
| `AmqpWire.PropertiesOnWire` | src/github.com/streadway/amqp/types.go:85-100 | property flags go from bit 15 down in the order of the values, with their kinds |
| `AmqpWire.NoTimestamp` | src/github.com/streadway/amqp/write.go:70-118 | a timestamp that is not there is the zero time of the year 1, so that 1970 is one that is there |
| `AmqpWire.NumbersOnWire` | src/github.com/streadway/amqp/spec/gen.go:263-348 | octet, short, long, longlong and timestamp arguments take 1, 2, 4, 8 and 8 octets |
| `AmqpWire.AckOnWire` | src/github.com/streadway/amqp/spec091.go:2318-2365 | basic.ack is 60, 80, the tag in eight octets and its flag in the lowest bit of one more |
| `AmqpChannel.SendOpen` | src/github.com/streadway/amqp/channel.go:193-247 | sends the method first and, for a content, one header of the method's class that announces exactly the octets of the body frames behind it, which make up the body, all on one channel and nothing else; every body frame is non-empty and with its 8 octets within the frame size |
| `AmqpChannel.RunConcat` | src/github.com/streadway/amqp/channel.go:303-392 | the machine's run over joined frame sequences is the joined runs |
| `AmqpChannel.MethodsWait` | src/github.com/streadway/amqp/channel.go:308-345 | exactly basic.publish, return, deliver and get-ok wait for content; every other method is dispatched at once whatever was being put together |
| `AmqpChannel.Channel.Receive` | src/github.com/streadway/amqp/channel.go:308-392 | the three receive functions and `transition` on the channel's fields take one step of the machine and dispatch what it dispatches |
| `AmqpChannel.MachineIsMessages` | src/github.com/streadway/amqp/channel.go:308-392 | for any frames, well-formed or not, exactly the plain methods and the contents whose body frames first reach the declared size are dispatched; a stray frame costs the partial content only |
| `AmqpDemux.RunCut` | src/github.com/streadway/amqp/channel.go:193-247 | the frames of one message, cut at any frame size, dispatch that message with the last frame and nothing before, and leave the machine at its start |
| `AmqpDemux.RunCutAll` | src/github.com/streadway/amqp/channel.go:193-392 | the same for any list of messages, in order |
| `AmqpDemux.DemuxDelivers` | src/github.com/streadway/amqp/connection.go:375-424 | for every set of channels, every conversation on each and every interleaving of their frames, each channel dispatches exactly its own messages in order |
| `AmqpDemux.Connection.Receive` | src/github.com/streadway/amqp/connection.go:375-453 | one frame through `demux`, `dispatch0`, `dispatchN` and `dispatchClosed` on the mutable registry is one step of the demultiplexer, with the reader stuck where it calls `closeWith` |
| `AmqpDemux.ClosesAnswered` | src/github.com/streadway/amqp/connection.go:375-453 | for any frames, as long as none stops the reader, it reads on, every channel.close is answered with a close-ok on its channel, in order, and the registry has exactly the channels that were not closed |
| `AmqpDemux.StopsForGood` | src/github.com/streadway/amqp/connection.go:375-453 | the first frame that stops it (connection.close, which is answered, a heartbeat for an open channel, content for channel 0, a method for a closed channel) does so for good: nothing behind it is dispatched or answered |
| `AmqpDemux.Loopback` | src/github.com/streadway/amqp/connection.go:458-477 | end to end: interleaved frames written as octets, read back and demultiplexed give each channel its messages |
| `AmqpConfirms.Confirms.DoOne` | src/github.com/streadway/amqp/confirms.go:61-71 | the method on the mutable sequencer, with the loop over listeners, takes the state to the one the run theorems are about |
| `AmqpConfirms.Confirms.DoMultiple` | src/github.com/streadway/amqp/confirms.go:74-81 | the same for `Multiple` |
| `AmqpConfirms.RunKeeps` | src/github.com/streadway/amqp/confirms.go:23-81 | every run of Listen, Publish, One and Multiple keeps: entries filed under their own tag, every log consecutive up to the expected tag, logs only growing, all equally |
| `AmqpConfirms.ListenerLog` | src/github.com/streadway/amqp/confirms.go:23-58 | in every run a listener gets each tag once and in order, from the one expected at its registration up to the one expected now |
| `AmqpConfirms.LeastExactly` | src/github.com/streadway/amqp/confirms.go:23-81 | in every run of confirmations of published tags, single and multiple, all tags before the expected one are confirmed, and it is itself unconfirmed if and only if nothing that came early waits |
| `AmqpConfirms.TracksOne` | src/github.com/streadway/amqp/confirms.go:50-71 | after every single confirmation, whatever was waiting before, the expected tag is the least unconfirmed one |
| `AmqpConfirms.TracksMultiple` | src/github.com/streadway/amqp/confirms.go:74-81 | after a multiple one it is exactly when the tag it led up to had not come early |
| `AmqpConfirms.MultipleTells` | src/github.com/streadway/amqp/confirms.go:74-81 | for every state, a multiple confirmation tells every listener the tags from the expected one to its own, all with its flag, and leaves the other early ones alone |
| `AmqpConfirms.RunTells` | src/github.com/streadway/amqp/confirms.go:23-81 | in every run each operation tells the listeners the tags it releases, in order, with the flag of the confirmation that released them |
| `AmqpConfirms.LogsReport` | src/github.com/streadway/amqp/confirms.go:23-81 | so in every run each entry of each log carries the flag of its releaser, and exactly the tags before the expected one are reported |
| `AmqpConfirms.OwnFlagsExactly` | src/github.com/streadway/amqp/confirms.go:74-81 | that is the flag the server gave to the tag, for all of them, if and only if no multiple confirmation passed over an early one with another flag |
| `AmqpConfirms.NackOverridden` | src/github.com/streadway/amqp/confirms.go:61-81 | a run in which a tag that was nacked early is reported as acked |
| `AmqpConfirms.AllReleasedExactly` | src/github.com/streadway/amqp/confirms.go:23-81 | when every published tag is confirmed, all have reached the listeners if and only if nothing waits |
| `AmqpConfirms.ExpectingIsLeast` | src/github.com/streadway/amqp/confirms.go:50-71 | when published tags are confirmed once each by One, in any order, the expected tag is always the least unconfirmed one and flags are kept |
| `AmqpConfirms.AllConfirmed` | src/github.com/streadway/amqp/confirms.go:41-71 | then, with all confirmed, the log is 1..n with each tag's own flag and the sequencer is empty |
| `AmqpConfirms.EarlyRun` | src/github.com/streadway/amqp/confirms.go:23-71 | a run that leads to a tag that came early |
| `AmqpConfirms.EarlyTagWaits` | src/github.com/streadway/amqp/confirms.go:61-81 | an early tag that waits although every tag is confirmed, and the next single confirmation that releases it |
| `AmqpAllocator.RollingFinds` | src/github.com/streadway/amqp/allocator.go:66-86 | scanning from the cursor and then from the bottom finds a number if and only if one is free |
| `AmqpAllocator.Allocator.Next` | src/github.com/streadway/amqp/allocator.go:66-86 | the number was free, in range and the first in rolling order, and only it is marked; failure means all are taken and changes nothing |
| `AmqpAllocator.TunedMaxFits` | src/github.com/streadway/amqp/connection.go:693-769 | when the tuned maximum is within 1..65535, so that the uint16 conversion is lossless; then it is the greatest number within what both sides asked for |
| `AmqpAllocator.Registry.Allocate` | src/github.com/streadway/amqp/connection.go:538-551 | marked numbers stay exactly the registered ones; the channel gets a number nobody had, or nothing changes and all are in use |
| `AmqpAllocator.Registry.Release` | src/github.com/streadway/amqp/connection.go:555-561 | marked numbers stay exactly the registered ones; only this channel goes |
| `AmqpAllocator.Run` | src/github.com/streadway/amqp/connection.go:538-561 | over every run of opening and closing, a number given is one that no channel open at that point has, and a refusal means that all numbers are in use |
| `AmqpConsumers.StepKeeps` | src/github.com/streadway/amqp/consumers.go:34-62 | every step of buffer, producer and consumer keeps: emitted, in hand and queued together are what was received |
| `AmqpConsumers.NothingLost` | src/github.com/streadway/amqp/consumers.go:34-62 | in every schedule what the consumer got is a prefix of what was sent, and all of it once the output is closed |
| `AmqpConsumers.ItEnds` | src/github.com/streadway/amqp/consumers.go:34-62 | after the input is closed the buffer always has a step, and every step brings closing the output nearer |
| `AmqpConsumers.TakesIn` | src/github.com/streadway/amqp/consumers.go:34-62 | what the producer sent is taken in whether or not the consumer reads: the producer is never held up |
| `BundlerStore.PrefixedInjective` | src/siphon/bundler/cache.go:44-49 | keys of different app, submission or file never coincide |
| `BundlerStore.Store.Get` | src/siphon/bundler/cache.go:54-84 | while memcache is within S3 a result is what a plain read of S3 gives, and memcache stays within S3; without faults there is a result whenever S3 has one; what memcache kept is given whatever S3 does, and what is given is cached |
| `BundlerStore.Store.Set` | src/siphon/bundler/cache.go:95-111 | S3 changes at that key or not at all, success means it changed; when memcache does not fail it stays within S3 if and only if S3 did not fail with effect over another cached content |
| `BundlerStore.Store.Delete` | src/siphon/bundler/cache.go:114-130 | the same for deletion |
| `BundlerStore.Store.GetFiles` | src/siphon/bundler/db.go:102-139 | some of the rows, all of them if reading does not fail; success does not mean that they are all; what was shown is on the trace |
| `BundlerPush.Compare` | src/siphon/bundler/archive.go:91-131 | added, changed and removed each list exactly the names that are new, differ or are gone, without repeats; a parent path is refused |
| `BundlerPush.ParentPathMeans` | src/siphon/bundler/archive.go:91-131 | the names refused are those with "../" somewhere in them |
| `BundlerPush.BlobSurvives` | src/siphon/bundler/push.go:60-67 | after a removal its blob is there exactly when another row has that hash, if and only if the fetch had shown such a row |
| `BundlerPush.OthersBacked` | src/siphon/bundler/push.go:104-127 | no other row has lost its blob, if and only if the fetch had shown a row that shares it |
| `BundlerPush.PushHandler.UpdateOne` | src/siphon/bundler/push.go:130-157 | whatever fails, the row is the old or the new one and no row loses its blob |
| `BundlerPush.PushHandler.RemoveOne` | src/siphon/bundler/push.go:104-127 | success removes the row; the blob stays exactly when another row needs it, and no other row loses it, each if and only if the fetch showed a sharer if there is one; then failure leaves at most this one row without its blob |
| `BundlerPush.PushHandler.Reconcile` | src/siphon/bundler/push.go:306-339 | success leaves exactly the listing if and only if the fetch had shown all rows, and else the rows not shown beside it; failure at any step leaves every name with its old or its new row; if each removal on the trace was shown a sharer of the hash it removes, if there was one, which is so whenever reading rows does not fail, at most one more row, not of the listing, is without its blob, and none after success; nothing outside the app's development files changes |
| `BundlerPush.ReconcileResult` | src/siphon/bundler/push.go:306-339 | carrying out a comparison with some of the rows leaves the listing and, beside it, the other rows |
| `BundlerPush.ListingOnly` | src/siphon/bundler/push.go:306-339 | that is the listing alone if and only if there were no other rows |
| `BundlerPush.FetchFailureKeepsRow` | src/siphon/bundler/push.go:306-339 | carrying out the comparison made with no files over stores that work succeeds and keeps the old row beside the listing |
| `BundlerPush.CutFetchLosesBlob` | src/siphon/bundler/push.go:104-127 | a removal that was shown one of two files with one content succeeds and takes the blob of the other |
| `BundlerPush.CompleteStays` | src/siphon/bundler/push.go:306-339 | an archive that was complete for the rows is complete for whatever a half-done push left |
| `BundlerPush.Push` | src/siphon/bundler/push.go:291-340 | one push with any faults of S3, memcache, reading and writing rows keeps the archive complete and the world sound, and without faults of reading leaves at most one more row without its blob |
| `BundlerPush.PushRepeatedly` | src/siphon/bundler/push.go:291-340 | convergence: after any number of pushes that went wrong anywhere, the same archive pushed again over working services brings the rows to the listing, and if reading rows had not failed no file is without its blob that was not before |
| `BundlerSubmit.SubmitHandler.CopyFiles` | src/siphon/bundler/submit.go:123-144 | success means every blob fetched is in the submission's namespace with the content of its hash; no other blob comes in; nothing else changes; over working stores it succeeds exactly when every development file has its blob |
| `BundlerSubmit.SubmitHandler.MakeFooter` | src/siphon/bundler/submit.go:54-94 | success means that the footer is in S3, under "bundle-footer-ios" or "bundle-footer", and no other footer of the submission has changed in any case |
| `BundlerSubmit.SubmitHandler.MakeSnapshot` | src/siphon/bundler/db.go:220-235 | success makes the submission's rows those that were fetched; failure leaves some of them, none wrong |
| `BundlerSubmit.SubmitHandler.Submit` | src/siphon/bundler/submit.go:146-206 | success: rows equal the development rows if and only if the fetch for them was whole, a row has its blob if and only if its hash was fetched for copying or the blob was there, and the platform's footer, and no other, is stored; rows are added only for an unused id and an app with a Siphonfile; a used id changes nothing; nothing outside this submission changes; over working stores rows are added, and it succeeds, exactly when id, app, Siphonfile, blobs, client and packager are all right |
| `BundlerSubmit.SnapshotPersists` | src/siphon/bundler/submit.go:197-206 | no run of pushes and submits of any apps, failed ones included, changes a submission's rows or blobs |
| `BundlerSubmit.PullFooter` | src/siphon/bundler/pull.go:108-124 | over working stores a pull gives the footer of its platform, else the one under the old name, else none |
| `BundlerSubmit.FooterPersists` | src/siphon/bundler/pull.go:108-124 | after a submission and any run of pushes and submits behind it, a pull finds its footer if and only if it is for the same platform or the submission is an Android one |
| `BundlerSubmit.CopiedBytes` | src/siphon/bundler/submit.go:123-144 | under an injective hash the copied blob is the development blob byte for byte |
| `BundlerSubmit.PartialIsStuck` | src/siphon/bundler/submit.go:197-206 | corollary of SnapshotPersists at every step of a run: a snapshot with some of its rows keeps exactly those |
| `BundlerSubmit.HalfSnapshot` | src/siphon/bundler/db.go:220-235 | a snapshot over a fetch cut short reports success with one of two rows |
| `BundlerSubmit.RowWithoutBlob` | src/siphon/bundler/submit.go:123-206 | copying over a fetch that shows the Siphonfile alone and the snapshot over all rows both succeed, with a row whose blob is missing |
| `BundlerTemp.FilesToTemp` | src/siphon/bundler/utils.go:43-70 | the directory holds the content of every file, and nothing else, if and only if the names are placeable; without faults it is built whenever the contents are there |
| `BundlerTemp.SameDirectory` | src/siphon/bundler/utils.go:43-70 | directories that hold the same files and no others are the same |
| `BundlerTemp.BuildTwice` | src/siphon/bundler/utils.go:43-70 | over any stores, the directory built with an archive and the one built without, if both are built, are the same and hold every placeable file; over working stores with the blobs both are built |
| `BundlerTemp.BuildBothWays` | src/siphon/bundler/push.go:353-355 | after a push over working stores with every blob present and placeable names, building with the archive and without it both succeed and give the same directory |
| `BundlerTemp.OrderMatters` | src/siphon/bundler/utils.go:62-67 | of a file and a directory of one name the one written first stays and the other is lost without an error |
| `BundlerTemp.Colliding` | src/siphon/bundler/utils.go:62-67 | "a" beside "a/b" are such names, and "a" and "./a" are one path |
| `BundlerTemp.PartsOfSlashed` | src/siphon/bundler/utils.go:62-67 | a name of parts joined with slashes is split into these parts |
| `BundlerTemp.CleanPaths` | src/siphon/bundler/utils.go:62-67 | plain parts stay, empty ones and "." do not matter anywhere, ".." takes the plain part before it away |
| `BundlerTemp.StepUp` | src/siphon/bundler/utils.go:62-67 | ".." at the top does not lead out of the directory |
| `BundlerRace.RunKeeps` | src/siphon/bundler/cache.go:54-130 | under every interleaving of the S3 and memcache steps of concurrent calls, with evictions and failures, both stores hold only right contents |
| `BundlerRace.GetIsRight` | src/siphon/bundler/cache.go:70-84 | under every such interleaving a Get of a hash that succeeds returns the content with that hash |
| `BundlerRace.CleanIsNext` | src/siphon/bundler/cache.go:54-130 | a step without a fault is a step of the machine with faults |
| `BundlerRace.GetAlone` | src/siphon/bundler/cache.go:54-84 | alone and without faults a Get gives what memcache has, else what S3 has, cached then, else nothing |
| `BundlerRace.WriteAlone` | src/siphon/bundler/cache.go:95-130 | a Set puts its content into both stores, a Delete takes it out of both |
| `BundlerRace.SafeRunsStayWithin` | src/siphon/bundler/cache.go:54-130 | in every run without faults in which no step changes S3 at a key another call is about to fill, an entry S3 has not has a write on its way to it, and memcache is within S3 whenever no write is pending |
| `BundlerRace.UnsafeGoesStale` | src/siphon/bundler/cache.go:54-130 | after a step that changes S3 under a fill in hand, the calls under way can go on by themselves, without faults, to rest with memcache outside of S3 at that key, if and only if it is not a deletion whose content the other writers under way all put back |
| `BundlerRace.StaleAfterDelete` | src/siphon/bundler/cache.go:54-67 | such a run from stores at rest, by a Get and a Delete |
| `BundlerTemp.NeverBoth` | src/siphon/bundler/utils.go:62-67 | a listing with "a" and "a/b" is not placeable |
| `PqListener.StepKeeps` | src/github.com/lib/pq/notify.go:88-330 | every step of callers, reader and server keeps the invariant between state word, channel, lock holder and returned calls |
| `PqListener.ChannelSafe` | src/github.com/lib/pq/notify.go:108-179 | in every run, whatever the server sends, at most two replies wait, the reader never blocks on them, a query starts with an empty channel and the panic on two queries is unreachable |
| `PqListener.OwnReplies` | src/github.com/lib/pq/notify.go:277-330 | a call that reports "executed" took exactly its own query's error, if there was one, and one ready message |
| `PqListener.FailureIsFinal` | src/github.com/lib/pq/notify.go:183-211 | after a failure no later call gets as far as sending a query |
| `PqListener.NotExecutedMeansFailed` | src/github.com/lib/pq/notify.go:277-330 | a call returns "not executed" only when the connection has failed |
| `PqListener.FailedForGood` | src/github.com/lib/pq/notify.go:183-345 | closing, a failed write and the end of the reader each make the connection fail, for good |
| `PqListener.FailedWrite` | src/github.com/lib/pq/notify.go:277-297 | after a failed write the call returns "not executed" with the connection failed |
| `PqListener.NeverStuck` | src/github.com/lib/pq/notify.go:130-330 | in every run a call under way has a step of its own left, unless it waits for the server with the reader at work |
| `PqListener.EveryStepCounts` | src/github.com/lib/pq/notify.go:130-330 | every step but passed-over messages and closing brings a call under way nearer to its return, whatever the server sends |
| `PqListener.CallReturns` | src/github.com/lib/pq/notify.go:130-330 | so in every run a call returns after a bounded number of such steps |
| `PqListener.BreaksExactly` | src/github.com/lib/pq/notify.go:130-179 | while the server keeps to the protocol the reader leaves its loop on exactly the messages that do not |
| `PqListener.AllExecuted` | src/github.com/lib/pq/notify.go:130-330 | in every run against a server that answers each query with one CommandComplete, EmptyQueryResponse or ErrorResponse and then ReadyForQuery, with other messages anywhere, the connection never fails and every call that returns was executed and reports exactly the error the server sent for it, if any |
| `PqListener.ServerOwes` | src/github.com/lib/pq/notify.go:277-330 | and a call waits only as long as the server owes it an answer or the ReadyForQuery behind it |
| `PqConn.BringsNext` | src/github.com/lib/pq/conn.go:868-893 | skipping notices, notifications and parameter statuses finds the reply's next message, wherever they were put |
| `PqConn.Conn.RecvMessage` | src/github.com/lib/pq/conn.go:809-840 | with or without the slot the next message in the server's order is given, once |
| `PqConn.Conn.SaveMessage` | src/github.com/lib/pq/conn.go:798-805 | puts the last message back in front, or finds the slot full |
| `PqConn.Conn.PrepareTo` | src/github.com/lib/pq/conn.go:645-665 | for every reply by the protocol it stops right after that request's ready message with the server's error, if any; for any server at all messages keep their order, the slot is never found full and the connection is marked bad exactly on an unexpected message |
| `PqConn.Conn.ReadDescribe` | src/github.com/lib/pq/conn.go:1536-1560 | stops behind the row description, or after ready with the server's error |
| `PqConn.Conn.StExec` | src/github.com/lib/pq/conn.go:1223-1263 | either the whole error reply is read, or the first result message is back in front |
| `PqConn.Conn.PostExecute` | src/github.com/lib/pq/conn.go:1595-1621 | looks at one message and puts it back, unless it is an error, whose reply it reads to the end |
| `PqConn.Conn.ReadExecuteResponse` | src/github.com/lib/pq/conn.go:1624-1650 | reads exactly to the ready message and reports the error in front of it, if any |
| `PqConn.Conn.SimpleExec` | src/github.com/lib/pq/conn.go:514-537 | the same for a statement without parameters |
| `PqConn.Conn.SimpleQuery` | src/github.com/lib/pq/conn.go:539-595 | either the first row is back in front and all rows are to come, or everything up to ready is read and the outcome is the reply's |
| `PqConn.Rows.Next` | src/github.com/lib/pq/conn.go:1345-1392 | gives the next row of the reply, or reads to the end of it and says how it ended |
| `PqConn.Rows.Close` | src/github.com/lib/pq/conn.go:1327-1339 | passes over exactly the rows left, in order, ends at the ready message and terminates for any server |
| `PqConn.Ask` | src/github.com/lib/pq/conn.go:514-1650 | each kind of request with all its reading ends right after its own ready message, with the outcome and rows of its own reply |
| `PqConn.Session` | src/github.com/lib/pq/conn.go:514-1650 | whole sessions: request i gets the outcome and the rows of reply i, and nothing behind the last reply is touched |
| `PqBytea.ByteaRoundTrip` | src/github.com/lib/pq/encode.go:448-516 | every byte string survives encoding and parsing for every server version |
| `PqBytea.EscapeIsNotHex` | src/github.com/lib/pq/encode.go:504-512 | the escape form is never taken for the hex form |
| `PqBytea.EncodeBytea` | src/github.com/lib/pq/encode.go:495-516 | the appended result is read back as the bytes; it is two lower-case hex digits an octet behind \x for servers from 9.0 on, and printable and not taken for that for older ones |
| `PqBytea.ParseBytea` | src/github.com/lib/pq/encode.go:448-493 | taking raw runs in one go is the same as reading character by character, errors included |
| `PqBytea.AnyEscapeParses` | src/github.com/lib/pq/encode.go:448-493 | whichever octets are written in octal, the bytes are read |
| `PqBytea.AnyHexParses` | src/github.com/lib/pq/encode.go:448-493 | whichever hex digits are in upper case, the bytes are read |
| `PqCopy.AppendEscapedText` | src/github.com/lib/pq/encode.go:145-181 | copying up to the first special character and escaping the rest is escaping every character |
| `PqCopy.EscapedReads` | src/github.com/lib/pq/encode.go:145-181 | escaped text has no raw tab, newline or carriage return and reads back as the text |
| `PqCopy.EscapedIsNotNull` | src/github.com/lib/pq/encode.go:121-181 | escaped text is never the mark for NULL |
| `PqCopy.ReadsRows` | src/github.com/lib/pq/copy.go:221-229 | the text of any rows is read as exactly those rows, NULLs apart from texts, in order |
| `PqCopy.CopyIn.Flush` | src/github.com/lib/pq/copy.go:130-138 | the back-patched buffer is one CopyData message with everything that was buffered; the buffer stays |
| `PqCopy.CopyIn.Exec` | src/github.com/lib/pq/copy.go:203-240 | a row goes into the buffer or out with it; no values end the copying for good; after an error or the end nothing is sent |
| `PqCopy.CopyIn.Close` | src/github.com/lib/pq/copy.go:242-268 | sends what is buffered and CopyDone, after which the payloads sent are everything that was due; the buffer is due again |
| `PqCopy.CloseTwice` | src/github.com/lib/pq/copy.go:242-268 | two calls send each row once if and only if the first was by `Exec` or nothing was buffered |
| `PqCopy.CopyAll` | src/github.com/lib/pq/copy.go:130-268 | for any rows and wherever the buffer was flushed, the server finds on the wire only CopyData messages and a CopyDone at their end, and reads exactly those rows from them |
| `Hstore.TwoReplacements` | src/github.com/lib/pq/hstore/hstore.go:16-33 | escaping backslashes and then quotes escapes each character once |
| `Hstore.QuotedText` | src/github.com/lib/pq/hstore/hstore.go:39-75 | scanning a quoted string adds exactly the string, whatever is in it |
| `Hstore.Scan` | src/github.com/lib/pq/hstore/hstore.go:39-102 | the byte loop with its flags is the automaton the other lemmas are about |
| `Hstore.PrintedThenScan` | src/github.com/lib/pq/hstore/hstore.go:39-102 | every map, in every order of keys, with any white space outside of quotes, NULL in any letter case and quotes left out where nothing needs them, scans to the map |
| `Hstore.BlankText` | src/github.com/lib/pq/hstore/hstore.go:39-102 | white space alone scans to no pairs exactly when it is at most one character |
| `Hstore.JoinedIsPrinted` | src/github.com/lib/pq/hstore/hstore.go:106-118 | what `Value` writes is the printed form without white space |
| `Hstore.ValueThenScan` | src/github.com/lib/pq/hstore/hstore.go:106-118 | every map survives in whatever order its keys are written, NULL apart from "NULL" |
| `Hstore.Value` | src/github.com/lib/pq/hstore/hstore.go:106-118 | what the loop over the map writes, in any order of iteration, scans to the map |
| `PqOpts.ParseOpts` | src/github.com/lib/pq/conn.go:343-417 | the scanner's loops give the options, or the error, of the parsing function on every text |
| `PqOpts.WrittenParses` | src/github.com/lib/pq/conn.go:343-417 | options with any white space around keys, "=" and values, in quotes or without, are parsed to the list of them |
| `PqOpts.BadOrEmptyLast` | src/github.com/lib/pq/conn.go:343-417 | a last option without a value has the empty one; a key without "=", an open quote and a backslash at the end are errors |
| `PqOpts.JoinedParses` | src/github.com/lib/pq/url.go:41-75 | every list of good options joined is parsed back to the same list |
| `PqOpts.JoinedExactly` | src/github.com/lib/pq/url.go:41-75 | a list of options with values is parsed back to itself if and only if no key has white space or "=" in it and no value white space other than blanks |
| `PqOpts.UrlThenParse` | src/github.com/lib/pq/url.go:41-75 | in whatever order sorting puts the accrued options, they are parsed back if and only if they are good, and give the same settings |
| `PqOpts.SurvivesExactly` | src/github.com/lib/pq/url.go:42-47 | an option with a value survives if and only if its key and its value are good |
| `GodocFormat.Merger.Next` | src/golang.org/x/tools/godoc/format.go:173-209 | reports the least offset that is left, as start or end of its selection, and moves that selection alone |
| `GodocFormat.FormatSelections` | src/golang.org/x/tools/godoc/format.go:62-143 | the texts make up the input; each byte is written under exactly the selections over it; the tags are those of the links, each where it says; neighbouring texts without a tag between differ in selections |
| `GodocFormat.GoingChange` | src/golang.org/x/tools/godoc/format.go:102-140 | handling the least change keeps the bit set, the tags written and the merger in step with the selections, at an offset not before the last one |
| `GodocFormat.BitsComplete` | src/golang.org/x/tools/godoc/format.go:133-138 | the bit set names all selections over a byte if and only if none is numbered 64 or more |
| `S3Multi.SectionsTile` | src/gopkg.in/amz.v3/s3/multi.go:363-367 | the sections make up the file, all but the last full, none empty except for the empty file, which has one |
| `S3Multi.Upload.Reuse` | src/gopkg.in/amz.v3/s3/multi.go:373-384 | the inner loop finds a reusable old part if and only if there is one |
| `S3Multi.Upload.PutAll` | src/gopkg.in/amz.v3/s3/multi.go:348-395 | parts 1..n of the sections; exactly those sections arrive, once each and in order, that no old part has with number, size and checksum; a fault, with or without effect, stops it and what arrived stays |
| `S3Multi.Upload.PutUntilDone` | src/gopkg.in/amz.v3/s3/multi.go:348-395 | after any number of calls stopped by faults, and one more, the server's parts make up the file, and exactly the sections it did not have have arrived, each once |
| `S3Multi.NotSentAgain` | src/gopkg.in/amz.v3/s3/multi.go:373-384 | with a complete list a second upload sends nothing that arrived in the first one |

## Left out

- HTTP handlers, routing, gzip, JSON and zip reading, the packager subprocess, notifications and the health check: plumbing around the modelled parts.
- Token checking and request signing: thin layers over cryptography.
- The footers of a push: they are stored behind the rows, by the same calls as those of a submission.
- SQL text, connection pools and LIKE filtering: the table is a map keyed by app, submission and name.
- TLS, dialing, heartbeats, deadlines and all wall-clock timing; reconnecting and backoff of `Listener`.
- Timestamps, floats and `time.Parse` in the Postgres driver: they rest on library code; in COPY rows such values are texts without special characters.
- Concurrent pushes to one app: the source says that a push is not atomic; pushes and submits of one app follow one another.
- The rest of spec091.go: four methods are instances of the schema codec, the others are alike.
- amqp: floats are their bit patterns; shutdown of a connection drops its channels in one step, and what could wake a reader stuck in `closeWith` is not modelled; neither is `Close` of confirms and consumers.
- Listener channels of confirms are unbounded logs; a listener that does not read would block the sender.
- Sixty-four-bit wrap-around of delivery tags and counters: integers are unbounded.
- AmqpReader.Stream.Array: the limited reader is a stream of its own whose rest is put back, not an object shared with the outer reader.
- BundlerPush.PushRepeatedly: while pushes go wrong only rows that are not of the listing may lose their blob; how many is stated for one push.
- `errRecover`, which marks a connection bad after fatal errors and lost connections, and parsing of message bodies: messages are a type and a number.
- BundlerTemp.FilesToTemp: a path that would lead out of the directory ends at it; permissions, links and full disks are not modelled.
- PqCopy.CopyIn.Close: waiting for the server's answer, which never comes for a second call; and network errors while sending COPY data.
- ParseURL: taking the URL apart is the library's; the model starts from the options found and allows any order for the sort.
- Hstore: a nil map and the NULL value; the model starts from a map that is there.
- GodocFormat.FormatSelections: texts of two billion bytes and more, where offsets meet the code's `infinity`.
- S3Multi.Upload.PutAll: network calls for listing and sending are methods of the model with chosen faults; MD5 is taken as injective.
- EC2 and IAM clients, memcache sockets, gorilla/mux, golint, blog and the rest of godoc.
