# A model of the PeSIT transfer pipeline, proved in Dafny

PeSIT (version E, Hors-SIT profile) carries a file from one machine to another: the file is cut into *articles*,
each article may be compressed, articles are packed into data FPDUs (DTF), FPDUs are encoded and concatenated into
*entities*, with two check bytes per FPDU when that was negotiated, and entities travel over a byte stream. Numbered
synchronisation points, acknowledged within a window, let a receiver that meets a damaged FPDU ask for
resynchronisation, and let two sites restart a transfer whose connection was lost. A table of states says which
FPDU or local request is acceptable when.

This project models that pipeline from end to end and proves that it does what it is for. `dafny verify
dfyconfig.toml` checks everything.

## How the model is laid out

| layer | files |
|---|---|
| octets, check bytes, negotiated options | `Bytes`, `Crc`, `Params` |
| compression and its references | `Compress`, `Savings`, `Compressors` |
| FPDUs: structure, coding, editing, and those of a session as they are built | `Fpdu`, `Codec`, `FpduOps`, `Builders` |
| articles in FPDUs, FPDUs in entities, entities on a stream and in a queue, and the whole way | `Articles`, `Entities`, `Transport`, `Links`, `Shipping` |
| files as articles and back | `Cutter`, `TextLines`, `FileIo` |
| the automaton, and two of them in a dialogue | `StateTable`, `StateMirror`, `Dialogues` |
| the data phase | `Checkpoints`, `Canon`, `DataPhase`, `LogFollowing`, `DataSafety`, `DataSteps`, `DataReception`, `DataTheorems`, `DataWindow`, `DataResults`, `DataRestarts`, `DataNumbers`, `DataUnits`, `DataWire`, `DataRoom`, `DataProgress`, `DataInevitable`, `DataLastPoint`, `DataLoops`, `DataRules`, `WholeTransfer` |
| restarts under any coding | `DataAttempts`, `DataQuiet`, `DataAgreed` |
| runs written out, and files at which they fail | `DataScripts`, `DataRewind`, `DataDiverging`, `DataZeros`, `DataRefusal`, `DataExamples` |
| one attempt, requester against responder | `Session`, `SessionSafety`, `SessionProgress`, `SessionLoops`, `SessionRules`, `SessionUnits` |
| messages | `Messages` |

Where the program changes things in place the model does too: the compressor's references, the packer and the
reassembler, the FPDU's parameter list, the entity builder, the frame reader, the link's queue, the cutter, file
source and sink, the checkpoint store, the state machine, and the sending and receiving loops are classes or methods
with loops. Each of them is proved equal to a function on values, and the theorems are about those functions.

## What is proved, hardest first

**The data phase.** Two parties exchange units over two queues. A run is any sequence of turns of the two loops,
damage to units in flight, failures of either side, losses of the connection (the partial file falls back to what is
on disk) and restarts from any point. `Canon` gives, from the source and the negotiated parameters alone, the one
*log* a transfer follows: which wire form each article has and where the points fall. `DataTheorems.RunKeeps` shows
that in every run both parties stand at places of that log and that whatever is in flight reads as the log between
them. From it follow: a completed transfer has delivered exactly the source, with equal counters on both sides; a
point of a given number is the same cut of the source in both stores and in every run; a point asked for in RESYN is
always still there; the unacknowledged points are a consecutive block within the window; nobody ever waits for
nothing; and from wherever a run has got to, the transfer can be restarted and completed, if and only if its points
are fewer than 2^24. Once nothing more is damaged it completes whatever the order in which the loops take their turns
(`DataInevitable`). `DataWire` takes the units of the sending loop down to octets, through either framing and up
again. `WholeTransfer` puts the cutting of the file in front and the writing of it behind.

**Restarts under any coding.** The log above is the same for all attempts only if what is coded does not depend on where
an attempt began. `DataAgreed` does without it: it follows what the receiver will make of everything in flight, attempt
by attempt, from any two points. A transfer whose attempts start where both stores stand at the same article arrives
exactly under every coding, and one more restart is right if and only if the two stores' points stand at the same
article and the partial file reaches the receiver's.

**One attempt.** A requester and a responder, each with its automaton, negotiate, select, open, transfer, count,
close and deselect over a FIFO link with acknowledgements as late as they like. No automaton ever refuses an event;
both agree on what was negotiated; turns in any order bring the requester to its end, and both sides are then in CN03
with an empty link.

**The automaton.** Every accepted trace opens and closes connection, selection, open file and transfer one level at a
time, ABORT excepted, and never changes side or direction inside a transfer. Two automata that talk to each other stay
mirrored over every dialogue: whatever request one of them takes, the other accepts or ignores the FPDU it sends, but for
exactly four requests (`StateMirror.MirrorKept`, `Dialogues.DialogueKept`). Each exchange, from CONNECT to RELEASE, with
resynchronisation, interruption and messages, is followed to the state in which both sides end, granted or refused.

**Waiting and closing.** `SessionLoops.WaitDecided` reads the answer of every wait off the arrivals alone: the FPDU awaited
if and only if the first arrival not ignored is accepted, of its kind and no refusal; a refusal if and only if it is an
acknowledgement with a diagnostic. `SessionRules.ClosingInOrder` does so for the responder's closing of a transfer.

**FPDUs of a session.** `SessionUnits.MessageTravels` takes each message of an attempt to the FPDU the program builds for
it: it is well formed if and only if its parameters can say it, and encoded, decoded and read it is the message it was,
and the event it was.

**Compression** is modelled with its back-patched headers, and its two stateful ends: round trip, exact effect of a
reference that differs, lockstep, realignment after a synchronisation point, and worst-case expansion; and that it
compresses: runs are never spelt out, and what is coded against a reference carries the octets that differ from it and no
other (`Savings`).

**Codecs and packers**: each is shown to be undone by its inverse on every input, with exact sizes, and both packers to
waste no room (`Articles.PackedTightly`, `Entities.EntitiesCrowded`). `Shipping` chains them: what the sending loop hands to its entity builder is what the receiving link hands over, in order.

## Hypotheses, and what was found

The code needs the following of its parameters. Each is a condition of the theorems that need it, and each failure is
shown with its input or its exact condition.

* **Article limit.** `Reassembler::check` compares the length *on the wire* with the article limit. A compressed first
  article of full length goes out longer than the limit, and is refused if and only if it has to be segmented
  (`WholeTransfer.FullArticleRefused`). `Articles.PackThenReassemble` says exactly when everything gets through;
  `WholeTransfer.FileIsValid` gives a condition on the record length alone.
* **No article limit.** An article length of 0 is documented as unbounded (datapath.rs, lines 40 and 41), but with
  compression negotiated both ends are then built for one octet, and nothing longer is decompressed
  (`Compressors.FirstArticle`, `Compressors.NoLimitIsOneOctet`; in general `Compress.RoundTrip` and
  `Compressors.Lockstep`, which hold if and only if articles are within the limit).
* **Vertical coding and RESYN.** RESYN leaves both references as they were, so that they differ by what only the sender
  has coded. Without vertical strings this does not matter; with them an article must be covered: no longer than the
  longest since its point (`Canon.Config.Covered`). `DataRewind.RewindFailure` is a run in which a longer second line of
  a text file is damaged, asked for and sent again: the transfer completes with equal counters, and its file is right if
  and only if the line has nothing but zeros beyond the length of the first. `DataExamples.RewoundFile` gives such a
  file, of five octets. Files of full records, the last one shorter or not, are always covered
  (`WholeTransfer.FullRecordsTolerated`).
* **Vertical coding and restarts.** A restart builds both references anew, and within the attempt the two ends stay in
  step (`Compressors.Lockstep`). But the wire form of an article that is not covered then depends on where the attempt
  began (`Compressors.RestartChangesLengths`), and with it the articles at which points fall. What is lost is delivery,
  not only the common log: two attempts can leave two stores that name different articles by one number, and a restart
  from that point completes without the articles in between, or with some twice. `DataDiverging.RestartDiverges` is such
  a run from the beginning, `DataExamples.LostLine` a text file of four lines that arrives without its third. The exact
  condition is one that can be compared before the restart: `DataAgreed.RestartIsRight` shows, for all parameters and
  runs and with no cover asked, that an attempt that completes without damage leaves the source if and only if both
  points of its number stand at the same article (and the partial file reaches the receiver's);
  `DataAgreed.AgreedDelivery` and `WholeTransfer.AgreedFileArrives` are the theorems on whole runs under that condition.
  The articles the two sides have counted then differ by exactly as many as the two points.
  With covered articles the condition always holds (`DataResults.PointsAreCanonical`). Being covered includes the article
  before which a point is placed, because its coded length decides on the point.
* **Entity size.** Entities are never empty if and only if 11 octets fit beside the check bytes (`DataRoom.RoomNeeded`);
  below that, DTF.END of an empty file goes out behind an empty entity, and a reader of length prefixes stops
  (`DataRoom.EmptyFileUnread`). The theorems on completion ask for the 11 octets, and promise that no empty entity is
  sent on the way.
* **Point numbers.** The strict decoder refuses numbers from 2^24 on (`DataUnits.UnitWellFormed`), which a receiver of
  the data phase does too. A transfer completes only if its log has fewer points (`DataNumbers.CompletedWithin`), and can
  be completed if it has (`DataProgress.CanComplete`, `DataProgress.RestartCompletes`).
* **Negotiated entity size.** A requester that asks for an entity of fewer than seven octets settles on a smaller entity
  than the responder, unless the responder's own limit is no greater (`SessionSafety.SizesAgree`).
* **Restart points.** The receiver's file may be restarted from any point it still reaches. Restarting from a lower
  point, losing the connection and restarting from a higher one extends the file with zeros: the file that completes is
  right if and only if what lies between the two points is zero (`DataAgreed.RestartBelowLast`; `DataZeros.ZeroFilled` is
  such a run from the beginning). A site that always restarts from its last point is safe
  (`DataRestarts.LastPointIsSafe`).
* **The last point of the receiver** is in the sender's store in every run in which the receiver restarts from its last
  point, the sender joins it, records every point it sends and clears no store (`DataLastPoint.LastPointKept`). A sender
  that fails between sending a SYN and recording its point leaves the receiver with a point the sender has not got:
  restarts from it are refused, every time (`DataLastPoint.RefusedForEver`; `DataRefusal.StopIsFinal` is a run that gets
  there). Starting from the beginning is then the only way on.
* **Order of turns.** Undamaged, every order of turns completes a transfer, but for one: the end sent while a RESYN is on
  its way, which ends the sender and leaves the receiver waiting (`DataInevitable.EveryScheduleCompletes`,
  `DataInevitable.LateIsFinal`).
* **Interruption.** `interrupt` (datapath.rs, lines 143 to 175) takes two IDT at once for handled. Both automata then end
  in OF02, but each side's ACK(IDT) is still on its way, and the other refuses it there and wherever its next event leads
  (`Dialogues.CollisionLeavesAcks`); ACK(IDT) is accepted only while an interruption is pending
  (`Dialogues.AckIdtPending`). Interrupted by one side alone, whatever is on its way is dropped
  (`Dialogues.InterruptionDrains`).
* **Requests the peer refuses.** The table takes four requests whose FPDU the mirrored automaton refuses: an interruption
  once TRANS.END is at the server, a resynchronisation by the reading server then, a point placed by a receiver, and
  segments after a message sent whole (`StateMirror.Unmatched`).
* **Identifiers and counts.** A transfer identifier is a `u32` but PI 13 holds three octets, an article count a `u64` but
  PI 28 holds four: CREATE, SELECT and their answers from identifier 2^24 on, and TRANS.END and its answer from 2^32
  articles on, are refused by the strict decoder (`Builders.FileWellFormed`, `SessionUnits.MessageTravels`).
* **Messages.** A message is cut to the entity size, but PI 91 holds 4096 octets: the peer's decoder takes every FPDU of
  a message if and only if no piece is longer (`Messages.MessageArrives`). The room for the first piece reckons with three
  octets of overhead where four are needed from 255 octets on: a first FPDU that fills its room is then one octet longer
  than the entity (`Messages.FirstFpduLen`).
* **Check bytes** do not see 0x00 turned into 0xFF, nor exchanged octets whose difference times their distance is a
  multiple of 255 (`Crc.SingleByteChange`, `Crc.Swap`, both as equivalences).
* **Pre-connection.** On a length-prefixed stream a first entity of 0xD7C5, 0xC1C3 or 0xD5C1 octets is not read: the
  opening of the stream comes back as a pre-connection message (`Transport.MistakableLengths`). Entities are read back
  if and only if that is not so and each is within the limits (`Transport.LengthPrefixedRoundTrip`).
* **Text.** A line end may be LF or CR LF, and the articles are the same (`TextLines.SameArticles`); what arrives has LF.
  Empty lines do not come back in variable format (they return as one space) but do in fixed format;
  `Cutter.TextTrip` states exactly which files are reproduced, `TextLines.TextArrives` what arrives of any other.

## Model

| member | source | states |
|---|---|---|
| WholeTransfer.FileArrives | crates/pesit-io/src/datapath.rs:180-631 | over every run with damage, resynchronisation, loss and restarts: once completed, the received file is the source file octet for octet, in text formats exactly when the file is line-feed terminated and all lines are kept |
| WholeTransfer.TextFileArrives | crates/pesit-core/src/article.rs:116-196 | a text with either line end, completed over every run, has arrived as its lines with LF behind each, if and only if every line fits, is not empty in variable format and does not end in a space in fixed format |
| WholeTransfer.AgreedFileArrives | crates/pesit-io/src/datapath.rs:180-631 | the same under any coding and article limit, restarts being from points at the same article in both stores and damage ending its attempt |
| WholeTransfer.RestartedFileArrives | crates/pesit-io/src/requester.rs:374-399 | a restart from any point the partial file reaches, completed without damage, brings the very file if and only if that point stands at the same article in both stores |
| WholeTransfer.FileGetsThrough | crates/pesit-io/src/requester.rs:327-409 | with 11 octets of room: whatever has happened, a transfer can be restarted and completed with the very file and no empty entity if its points are fewer than 2^24, and never completes otherwise |
| WholeTransfer.FileIsValid | crates/pesit-core/src/article.rs:424-430 | a condition on record length, article limit (0 being none), compression and FPDU size under which the hypotheses of the data phase hold of every file |
| WholeTransfer.FullArticleRefused | crates/pesit-core/src/article.rs:387-430 | a compressed first article of full length is longer on the wire than the limit and refused if and only if it has to be segmented |
| WholeTransfer.FullRecordsTolerated | crates/pesit-core/src/article.rs:116-177 | files in all formats but variable text may be damaged, resynchronised and restarted under any compression |
| WholeTransfer.CutFits | crates/pesit-core/src/article.rs:116-177 | every article has at least one octet and at most the record length |
| WholeTransfer.FileIsWellCut | crates/pesit-io/src/io.rs:103-139 | article positions in the file start at 0 and rise strictly |
| DataTheorems.RunKeeps | crates/pesit-io/src/datapath.rs:180-631 | the joint invariant of sender, receiver, queues, stores and file holds after every run held to the hypotheses |
| DataTheorems.KeepsStep | crates/pesit-io/src/datapath.rs:180-631 | each turn, failure, damage, loss and restart keeps the joint invariant |
| DataTheorems.KeepsBeginSender | crates/pesit-io/src/requester.rs:374-409 | a sender that starts from a point stands where the receiver stands or will start |
| DataTheorems.KeepsBeginReceiver | crates/pesit-io/src/responder.rs:569-611 | a receiver that starts from a point its file reaches holds the canonical file of that point |
| DataResults.ExactDelivery | crates/pesit-io/src/datapath.rs:291-650 | a receiver that completes holds exactly the articles of the source in order, and both sides' counters are equal |
| DataResults.PointsAreCanonical | crates/pesit-io/src/checkpoint.rs:57-98 | a point of a number is the same cut of the source in both stores and in every two runs |
| DataResults.ResyncPointFound | crates/pesit-io/src/datapath.rs:228-268 | a point asked for by RESYN is never pruned, its answer names it, and the receiver finds it |
| DataResults.WindowAndInterval | crates/pesit-io/src/datapath.rs:325-384 | unacknowledged points are the consecutive block ending at the last one, at most the window; the octets since the last point, summed article by article, exceed 1024 times the negotiated kilobytes (1048576 when undefined) only when those of one article do; with 0 kilobytes there is no point |
| DataResults.PointsPaced | crates/pesit-core/src/params.rs:133-140 | in every run every recorded point stands as late as that interval allows: the articles since the one before keep within it, unless one article fills it, and the next article would not |
| DataResults.BlockedHasAnswer | crates/pesit-io/src/datapath.rs:325-336 | a sender held up by the window has an ACK(SYN) or RESYN coming, or a SYN or ACK(RESYN) of its own under way, unless the receiver has stopped |
| DataResults.NeverStuck | crates/pesit-io/src/datapath.rs:291-631 | while both loops run, something can be taken or sent |
| DataRestarts.LastPointIsSafe | crates/pesit-io/src/responder.rs:591-611 | restarting always from the last point meets the hypotheses of every theorem: the file reaches every point of the store whatever was lost |
| DataRestarts.RestartExact | crates/pesit-io/src/io.rs:169-201 | a restart finds the file of the point if and only if the partial file reaches it or everything missing is zero |
| DataAgreed.AgreedDelivery | crates/pesit-io/src/datapath.rs:180-631 | under any coding, in every run whose attempts start from points at the same article in both stores and whose damage only ends them: completion means exactly the articles of the source, equally counted |
| DataAgreed.RestartIsRight | crates/pesit-io/src/requester.rs:374-399 | after any trusted run, an attempt from any point that completes without damage leaves the source if and only if both points stand at the same article and the file reaches the receiver's or lacks only zeros; the counters differ by as much as the points |
| DataAgreed.AttemptLeaves | crates/pesit-io/src/datapath.rs:180-631 | an attempt from any two points leaves the file its receiver opened and the articles from the sender's point on |
| DataAgreed.RestartBelowLast | crates/pesit-io/src/io.rs:169-201 | a restart from a lower point, lost, then one from a higher: once completed, the file is right if and only if it is zero between the two |
| DataQuiet.UnderStep | crates/pesit-io/src/datapath.rs:180-631 | whatever happens in an attempt but another start, all that is in flight, once absorbed, leaves the receiver level with the sender |
| DataAttempts.DatasAbsorbed | crates/pesit-io/src/datapath.rs:531-541 | data FPDUs are refused on the way or taken whole, the file being right at every step |
| DataDiverging.RestartDiverges | crates/pesit-io/src/datapath.rs:346-384 | a run from the beginning after which point 2 stands at different articles in the two stores, and a restart from it that completes without an article |
| DataExamples.LostLine | crates/pesit-io/src/datapath.rs:346-384 | a text file of four lines that arrives without its third, every attempt but the last from points that agree |
| DataExamples.RewoundFile | crates/pesit-io/src/datapath.rs:237-268 | a text file of two lines that completes with a wrong second line after a rewind |
| DataZeros.ZeroFilled | crates/pesit-io/src/io.rs:169-201 | a run from the beginning that restarts below the last point and then from it, completing with zeros for an article, right if and only if the article was zero |
| DataLastPoint.LastPointKept | crates/pesit-io/src/requester.rs:374-386 | in every run with restarts from the last point, a sender that records what it sends and clears nothing still has the receiver's last point, so that the next restart is admitted |
| DataLastPoint.RefusedForEver | crates/pesit-io/src/requester.rs:374-386 | a receiver that insists on a last point its sender has not got is refused every time and never completes |
| DataRefusal.StopIsFinal | crates/pesit-io/src/datapath.rs:356-372 | a sender failing between a SYN and its record brings about such a refusal |
| DataInevitable.EveryScheduleCompletes | crates/pesit-io/src/datapath.rs:291-631 | from every undamaged state with both loops at work, any turns that each do something, carried on until none is left, complete the transfer with the whole file |
| DataInevitable.NoEndlessSchedule | crates/pesit-io/src/datapath.rs:291-631 | no sequence of turns that each do something goes on for ever |
| DataInevitable.LateIsFinal | crates/pesit-io/src/datapath.rs:237-245 | once the end is sent while a RESYN is on its way no turns complete the transfer |
| DataProgress.CanComplete | crates/pesit-io/src/datapath.rs:291-631 | with 11 octets of room: from every run with both loops at work their own turns lead to completion with the whole file and no empty entity if the points are fewer than 2^24; otherwise no run completes |
| DataProgress.RestartCompletes | crates/pesit-io/src/requester.rs:374-386 | the same after a loss at any moment and a restart from the beginning or from any point both sides hold |
| DataNumbers.CompletedWithin | crates/pesit-core/src/fpdu.rs:689-775 | a transfer that completes has fewer than 2^24 points |
| DataNumbers.OnlyPointsRefused | crates/pesit-core/src/fpdu.rs:689-775 | in every run every answer can be read, and a unit refused for its number is a SYN whose number is a point of the log |
| DataRoom.RoomNeeded | crates/pesit-io/src/datapath.rs:385-426 | no turn of any run of any transfer sends an empty entity if and only if 11 octets fit an entity beside its check bytes |
| DataRoom.EmptyFileUnread | crates/pesit-io/src/datapath.rs:410-426 | below that the end of an empty file goes out behind an empty entity, at which a reader of length prefixes stops |
| DataWire.ShipsAlike | crates/pesit-io/src/datapath.rs:385-426 | the entities of the data phase are, octet for octet, those of the entity builder under the sending rule |
| DataWire.SentQueued | crates/pesit-io/src/datapath.rs:385-426 | the queue of the data phase takes exactly the units of the entities sent |
| DataWire.UnitsArrive | crates/pesit-io/src/datapath.rs:385-426 | units shipped, written in either framing, read, decoded and taken from the link are the units sent, in order |
| DataRewind.RewindFailure | crates/pesit-io/src/datapath.rs:237-268 | a run in which a longer line of a text file is sent again, coded vertically, after damage completes with equal counters, its file right if and only if that line has only zeros beyond the first |
| DataWindow.RunWindow | crates/pesit-io/src/datapath.rs:228-236 | in every run the unacknowledged numbers are those still in flight, as SYN forward or ACK(SYN) backward |
| DataSteps.KeepsPlainArticle | crates/pesit-io/src/datapath.rs:338-345 | an article sent without a point keeps the invariant |
| DataSteps.KeepsArticleAtPoint | crates/pesit-io/src/datapath.rs:346-394 | a point, its flush and the article compressed a second time keep the invariant |
| DataSteps.KeepsFailAtSync | crates/pesit-io/src/datapath.rs:356-372 | a sender that fails between sending a SYN and recording it keeps the invariant |
| DataSteps.KeepsSendEnd | crates/pesit-io/src/datapath.rs:410-430 | flushing and sending DTF.END keeps the invariant |
| DataReception.KeepsResyn | crates/pesit-io/src/datapath.rs:237-268 | a RESYN taken by the sender rewinds it to the canonical place of that point |
| DataReception.KeepsDamaged | crates/pesit-io/src/datapath.rs:483-504 | a damaged unit leaves the receiver asking for its last point, with everything in flight to be dropped |
| DataReception.KeepsAckResyn | crates/pesit-io/src/datapath.rs:505-527 | ACK(RESYN) cuts the receiver back to where the rewound sender goes on |
| DataReception.KeepsUnit | crates/pesit-io/src/datapath.rs:531-587 | an undamaged unit moves the receiver along the log |
| Canon.PointUnique | crates/pesit-io/src/datapath.rs:346-384 | a point number names one place of the log |
| Canon.Paced | crates/pesit-io/src/datapath.rs:200-209 | octets since a point, summed article by article, exceed the negotiated number of octets only when those of one article do; without the option there is no point |
| Canon.PointPaced | crates/pesit-io/src/datapath.rs:346-348 | between two points the articles keep within the interval, and the next would not have |
| Canon.SenderWire | crates/pesit-core/src/compress.rs:278-291 | the compressor's output depends on its history only through a good reference |
| Canon.ReceiverArticle | crates/pesit-core/src/compress.rs:314-326 | the decompressor gets the article back from any good reference |
| Canon.WireAtPoint | crates/pesit-io/src/datapath.rs:342-384 | an article compressed, then compressed again after a point, goes out literally and leaves the reference as one compression does |
| Canon.PointsBound | crates/pesit-io/src/datapath.rs:346-384 | every log ends, its points are numbered consecutively and are no more than its articles |
| Canon.RewoundTo | crates/pesit-io/src/io.rs:141-148 | the position of an article finds that article again |
| DataUnits.UnitWellFormed | crates/pesit-core/src/builder.rs:499-528 | a numbered unit is a well-formed FPDU if and only if its number is below 2^24, and has the length the sending loop reckons with |
| DataUnits.UnitRoundTrip | crates/pesit-core/src/builder.rs:491-528 | SYN, RESYN, their acknowledgements and DTF.END are read as they were built |
| DataUnits.DataWellFormed | crates/pesit-core/src/article.rs:240-299 | what a packer emits is well formed and within its size |
| DataUnits.SenderTable | crates/pesit-core/src/state.rs:216-555 | every turn of the sending loop is accepted by the automaton and keeps it in step with the loop |
| DataUnits.ReceiverTable | crates/pesit-core/src/state.rs:216-555 | every unit of the receiving loop, the request after damage and its answer are accepted by the automaton |
| DataLoops.SendLoop.constructor | crates/pesit-io/src/datapath.rs:189-221 | the sending loop starts from a checkpoint as the sender of the data phase does |
| DataLoops.SendLoop.Turn | crates/pesit-io/src/datapath.rs:291-430 | one turn of the sending loop, answers, window, article or end, is the step of the data phase |
| DataLoops.SendLoop.SendArticle | crates/pesit-io/src/datapath.rs:338-400 | the article branch of the loop is the step of the data phase |
| DataLoops.SendLoop.SendEnd | crates/pesit-io/src/datapath.rs:410-430 | the end of the loop is the step of the data phase |
| DataLoops.SendLoop.HandleAsync | crates/pesit-io/src/datapath.rs:224-268 | ACK(SYN) and RESYN handled while sending are the step of the data phase |
| DataLoops.SendLoop.PlacePoint | crates/pesit-io/src/datapath.rs:346-384 | flush, SYN, checkpoint, window and counters of a point |
| DataLoops.SendLoop.Resume | crates/pesit-io/src/datapath.rs:243-268 | the point found or the beginning is answered and resumed from |
| DataLoops.SendLoop.PopAcknowledged | crates/pesit-io/src/datapath.rs:232-234 | the loop drops exactly the acknowledged front of the queue |
| DataLoops.SendLoop.Append | crates/pesit-io/src/datapath.rs:385-391 | a unit that does not fit is preceded by the entity being sent |
| DataLoops.ReceiveLoop.constructor | crates/pesit-io/src/datapath.rs:447-464 | the receiving loop starts from a checkpoint as the receiver of the data phase does |
| DataLoops.ReceiveLoop.HandleUnit | crates/pesit-io/src/datapath.rs:531-587 | data, SYN and DTF.END handled are the step of the data phase, failures included |
| DataLoops.ReceiveLoop.HandleDamage | crates/pesit-io/src/datapath.rs:483-504 | a transmission error asks for the last point |
| DataLoops.ReceiveLoop.HandleAckResyn | crates/pesit-io/src/datapath.rs:505-527 | the file is cut back and the reassembler renewed; an unknown point fails and changes nothing else |
| DataLoops.ReceiveLoop.WriteAll | crates/pesit-io/src/datapath.rs:531-541 | the loop over completed articles decompresses, writes and counts them in order, up to the first that does not decompress |
| DataRules.NoUnaskedAcks | crates/pesit-io/src/datapath.rs:551-575 | over every run, a receiver that agreed on points without a window acknowledges none |
| DataRules.WindowUsed | crates/pesit-io/src/datapath.rs:325-336 | over every run, unless as many points as the window are unacknowledged, the sender's next turn takes the next article or ends the data |
| DataRules.StartsAfresh | crates/pesit-io/src/requester.rs:387-389 | a transfer from the beginning starts with no point, no count and an empty file |
| DataRules.DamageAnswered | crates/pesit-io/src/datapath.rs:483-504 | a damaged unit is never acted upon: the last point is asked for, if that was agreed and nothing is awaited, or the receiver stops |
| DataRules.RequestAnswered | crates/pesit-io/src/datapath.rs:237-268 | a RESYN is answered with the point asked for, or the beginning, and resumed from there; after the end, or not agreed, it stops the sender |
| SessionSafety.AttemptIsSafe | crates/pesit-io/src/requester.rs:327-555 | in every run no automaton refuses and no FPDU is unexpected; at the end both are in CN03, the link is empty, the counters and the options agree |
| SessionSafety.RunKeeps | crates/pesit-io/src/responder.rs:326-880 | the joint invariant of an attempt holds after every run |
| SessionSafety.AgreedDuringData | crates/pesit-io/src/requester.rs:152-240 | from the start of the data phase both sides use the same synchronisation, resynchronisation and compression; the server's entity size is what was asked, at least seven octets and at most its own limit, the requester's the smaller of that and its own |
| SessionSafety.SizesAgree | crates/pesit-io/src/responder.rs:500-566 | the entity sizes kept by the two sides are equal if and only if the request has room for an octet of data or the server admits no more than was asked |
| SessionSafety.AttemptGoesOn | crates/pesit-io/src/requester.rs:255-304 | an attempt never stops short of its end |
| SessionProgress.AttemptCanFinish | crates/pesit-io/src/responder.rs:821-880 | from every run turns of the two sides bring the requester to its end, both in CN03 with nothing in flight |
| SessionProgress.EveryScheduleFinishes | crates/pesit-io/src/responder.rs:821-880 | turns in any order that each do something, carried on until none is left, end both sides in CN03 with nothing in flight |
| SessionProgress.NoEndlessSchedule | crates/pesit-io/src/responder.rs:821-880 | no sequence of such turns goes on for ever |
| SessionProgress.NextTurn | crates/pesit-io/src/requester.rs:255-304 | while the attempt is not over some turn brings it nearer to its end |
| SessionLoops.Peer.AwaitReply | crates/pesit-io/src/requester.rs:265-304 | the waiting loop comes to what `Awaited` says of the arrivals, which WaitDecided and WaitGoesOn read off the arrivals alone |
| SessionLoops.WaitDecided | crates/pesit-io/src/requester.rs:265-304 | with k the first arrival the automaton does not ignore: the wait takes k+1 arrivals; it returns the FPDU if and only if the automaton accepts it, it is of the kind awaited and no acknowledgement with a diagnostic but 0-0; a refusal with that diagnostic if and only if it is one; an FPDU out of place if and only if it is refused or of another kind; ABORT if and only if it is ABORT |
| SessionLoops.WaitGoesOn | crates/pesit-io/src/requester.rs:290-292 | a wait goes on if and only if the automaton ignores every arrival, and leaves it as it was |
| SessionLoops.AbortDisconnects | crates/pesit-io/src/requester.rs:265-274 | ABORT ends every wait in CN01 |
| SessionLoops.Peer.Request | crates/pesit-io/src/requester.rs:255-304 | an event refused by the automaton sends nothing; otherwise the FPDU goes out and the wait of WaitDecided follows from the state after the event |
| SessionLoops.LateAcksDropped | crates/pesit-io/src/requester.rs:255-304 | any number of late acknowledgements are dropped before ACK(TRANS.END) is found |
| SessionLoops.CloseTransfer | crates/pesit-io/src/responder.rs:821-880 | the responder's closing loop answers TRANS.END, CRF and DESELECT, compares the counts and keeps the diagnostic to report |
| SessionLoops.ClosesConnected | crates/pesit-io/src/responder.rs:821-880 | the closing exchange ends in CN03 with one answer each, and reports the peer's diagnostics and counts that differ |
| SessionLoops.LateAcksBeforeClosing | crates/pesit-io/src/responder.rs:821-880 | late acknowledgements of a file that was read do not disturb its closing |
| SessionRules.PointAnswered | crates/pesit-io/src/datapath.rs:551-575 | a receiving side answers a point unless points were agreed without a window |
| SessionRules.CountsChecked | crates/pesit-io/src/requester.rs:506-540 | a positive end of transfer with other counts stops the requester, any other answer has it close the file |
| SessionRules.ClosingInOrder | crates/pesit-io/src/responder.rs:821-880 | over any arrivals the server answers TRANS.END with its own counts, then CRF, then DESELECT, and only then is the transfer over, in CN03; only ABORT aborts it |
| SessionUnits.MessageTravels | crates/pesit-core/src/builder.rs:36-571 | every message of an attempt outside the data phase is a well-formed FPDU if and only if its values fit its parameters, and encoded, decoded and read it is the message it was and the event its automaton takes it for |
| SessionUnits.ControlWellFormed | crates/pesit-core/src/builder.rs:92-124 | RELEASE, ABORT, RCONNECT, IDT, RELCONF and ACK(IDT) are well formed, RCONNECT if its text fits |
| Builders.ConnectWellFormed | crates/pesit-core/src/builder.rs:36-64 | CONNECT is well formed if and only if names have 1 to 24 octets, the password at most 16, the message at most 254, version and time-out two octets |
| Builders.FileWellFormed | crates/pesit-core/src/builder.rs:239-319 | CREATE, SELECT and ACK(SELECT) are well formed if and only if the file has a name, no text is empty or too long, the identifier is below 2^24 and all fit one FPDU |
| Builders.BuiltWell | crates/pesit-core/src/fpdu.rs:689-775 | an FPDU built from fields in order, the mandatory ones present, is well formed if and only if each field is and it is not too long |
| Messages.SendMessage | crates/pesit-io/src/requester.rs:558-615 | the FPDUs of a message: one, or a first one and segments cut in a loop |
| Messages.TakeMessage | crates/pesit-io/src/responder.rs:882-910 | the loop that puts segments together up to MSGFM |
| Messages.MessageArrives | crates/pesit-io/src/requester.rs:558-615 | all FPDUs of a message are well formed if and only if no piece is longer than 4096 octets, and then the message arrives whole |
| Messages.MsgWellFormed | crates/pesit-core/src/builder.rs:578-611 | MSG and MSGDM are well formed if and only if their description is right and PI 91 has at most 4096 octets |
| Messages.FirstFpduLen | crates/pesit-io/src/requester.rs:565-567 | the first FPDU fits the entity if and only if it carries fewer than 255 octets or does not fill its room; else it is one octet too long |
| Messages.SegmentFits | crates/pesit-io/src/requester.rs:597-603 | segments fit the entity |
| StateMirror.MirrorKept | crates/pesit-core/src/state.rs:216-555 | of two mirrored automata, what one does the other accepts or ignores, and they stay mirrored, but for exactly four requests |
| Dialogues.DialogueKept | crates/pesit-core/src/state.rs:216-555 | over every dialogue, in turns of either side, nothing is refused and the automata stay mirrored |
| Dialogues.SessionExchanges | crates/pesit-core/src/state.rs:239-275 | DoConnect, ACONNECT and CONNECT, DoAccept end in CN03, refused in CN01; DoRelease, RELCONF and RELEASE, DoAccept end in CN01 |
| Dialogues.FileExchanges | crates/pesit-core/src/state.rs:256-348 | creation, selection, opening, writing, reading, closing and deselection, each accepted at both sides and ending in its states, granted and refused |
| Dialogues.EndExchanges | crates/pesit-core/src/state.rs:406-514 | the end of a file written and of one read, at both sides, whatever the answer, ends in OF02 |
| Dialogues.Resyncs | crates/pesit-core/src/state.rs:349-480 | DoResync, ACK(RESYN) and RESYN, DoAccept return each of the four data states to itself |
| Dialogues.Cancels | crates/pesit-core/src/state.rs:515-532 | from every state of a transfer but those with TRANS.END at the server, DoCancel, ACK(IDT) and IDT, DoAccept end in OF02 |
| Dialogues.InterruptionDrains | crates/pesit-io/src/datapath.rs:143-175 | however much is still on its way to a side that has interrupted, it is dropped until ACK(IDT) |
| Dialogues.CollisionLeavesAcks | crates/pesit-io/src/datapath.rs:162-168 | two interruptions at once end both sides in OF02, where the ACK(IDT) still to come is refused, as it is after the next event |
| Dialogues.DataExchanges | crates/pesit-core/src/state.rs:349-470 | data, points and their acknowledgements leave both sides in the data phase |
| Dialogues.MessageExchanges | crates/pesit-core/src/state.rs:533-555 | a message sent whole and its answer end in CN03 at both sides |
| Dialogues.SegmentedExchanges | crates/pesit-core/src/state.rs:533-555 | so does a message in any number of segments |
| StateTable.Machine.constructor | crates/pesit-core/src/state.rs:579-584 | a machine starts in CN01 |
| StateTable.Machine.Apply | crates/pesit-core/src/state.rs:593-605 | the machine follows the table, whose traces and dialogues are the subject of StateMirror and Dialogues; an ignored or refused event changes nothing |
| StateTable.Machine.Reset | crates/pesit-core/src/state.rs:614-616 | back to CN01 |
| StateTable.OneLayerAtATime | crates/pesit-core/src/state.rs:216-555 | every accepted event but ABORT moves at most one level, through its plateau, and keeps side and direction in a transfer |
| StateTable.Nesting | crates/pesit-core/src/state.rs:216-555 | over every trace without ABORT no level is entered or left without passing the plateau of each level between |
| StateTable.FamilyKept | crates/pesit-core/src/state.rs:216-555 | two transfers of different side or direction are separated by OF02 or ABORT |
| StateTable.SenderTakesNoData | crates/pesit-core/src/state.rs:216-555 | a sending machine refuses data, or ignores it while interrupted |
| StateTable.DataOnlyWhenReceiving | crates/pesit-core/src/state.rs:216-555 | data is accepted exactly in the two receiving states, which it does not leave |
| StateTable.NoDataAfterSending | crates/pesit-core/src/state.rs:216-605 | over every trace, a machine that sent data takes none before OF02 or ABORT |
| Compress.HorizontalInto | crates/pesit-core/src/compress.rs:88-125 | the scan with its back-patched headers writes the strings of the chunk |
| Compress.HorStringsCode | crates/pesit-core/src/compress.rs:88-125 | those strings are valid, need no reference and stand for the chunk |
| Compress.VerticalInto | crates/pesit-core/src/compress.rs:128-154 | the scan against the reference writes the strings of the chunk, horizontal coding nested in mixed mode |
| Compress.VertExpands | crates/pesit-core/src/compress.rs:128-154 | those strings, read against any reference, stand for the chunk with matching octets taken from that reference |
| Compress.Compress | crates/pesit-core/src/compress.rs:66-85 | the chunk loop writes the wire form of the whole article |
| Compress.StringsValid | crates/pesit-core/src/compress.rs:66-154 | every string count is within six bits |
| Compress.Decompress | crates/pesit-core/src/compress.rs:158-207 | the decoding loop reads string by string, with its errors |
| Compress.TakeString | crates/pesit-core/src/compress.rs:166-205 | one string read from the middle of the input |
| Compress.RoundTrip | crates/pesit-core/src/compress.rs:66-207 | for every mode, article and reference decompression undoes compression if and only if the article is within the receiver's limit |
| Compress.DecodedWithin | crates/pesit-core/src/compress.rs:158-207 | nothing longer than the limit is ever decompressed |
| Compress.CrossReference | crates/pesit-core/src/compress.rs:66-207 | what comes out when the receiver's reference differs |
| Compress.OtherReference | crates/pesit-core/src/compress.rs:66-207 | with another reference the article is right if and only if the references agree wherever it matches the sender's |
| Compress.UniformWire | crates/pesit-core/src/compress.rs:66-154 | vertical coding takes one octet a chunk against an equal reference, and as much as literal coding against one that agrees nowhere |
| Compress.Expansion | crates/pesit-core/src/compress.rs:66-154 | worst-case length of the wire form in every mode, a chunk being 63 octets |
| Savings.StringOctets | crates/pesit-core/src/compress.rs:158-207 | the three kinds of string on the wire and what each is read as |
| Savings.BadHeader | crates/pesit-core/src/compress.rs:158-207 | an octet is an invalid header if and only if it is one of 64 to 127 |
| Savings.RunsCoded | crates/pesit-core/src/compress.rs:88-125 | in the horizontal and mixed modes no two equal octets stand side by side in a literal string |
| Savings.OnlyDifferences | crates/pesit-core/src/compress.rs:128-154 | in the vertical and mixed modes what is carried is exactly the octets that differ from the reference |
| Compressors.Reference.constructor | crates/pesit-core/src/compress.rs:218-222 | a reference starts as zeros of the article length, at least one |
| Compressors.Reference.Update | crates/pesit-core/src/compress.rs:231-236 | the article overwrites the front of the reference, which grows when it must |
| Compressors.Compressor.constructor | crates/pesit-core/src/compress.rs:257-263 | a compressor starts as after a synchronisation point |
| Compressors.Compressor.SyncPoint | crates/pesit-core/src/compress.rs:272-274 | the next article goes out literally |
| Compressors.Compressor.CompressArticle | crates/pesit-core/src/compress.rs:278-291 | wire form and new reference of an article |
| Compressors.Decompressor.constructor | crates/pesit-core/src/compress.rs:305-311 | a decompressor starts with the same reference |
| Compressors.Decompressor.DecompressArticle | crates/pesit-core/src/compress.rs:314-326 | the article or an error; the reference moves only with an article |
| Compressors.Lockstep | crates/pesit-core/src/compress.rs:210-327 | two ends built alike, through any points, compress-twice included: every article arrives if and only if all are within the limit, and then the references stay equal |
| Compressors.FirstArticle | crates/pesit-core/src/compress.rs:210-327 | a first article arrives if and only if it has at most the octets both ends were built for, at least one |
| Compressors.NoLimitIsOneOctet | crates/pesit-io/src/datapath.rs:40-41 | with an article length of 0 a compressed article of two octets is refused |
| Compressors.RestartChangesLengths | crates/pesit-io/src/datapath.rs:200-201 | the coded length of an article depends on where the attempt began |
| Compressors.Realign | crates/pesit-core/src/compress.rs:210-327 | from different references, every article after a point no longer than the longest since arrives |
| Compressors.LongerArticleMayBeWrong | crates/pesit-io/src/datapath.rs:260-262 | a longer vertical article after a rewind decodes wrongly with nothing noticed |
| Crc.Sums | crates/pesit-core/src/crc.rs:35-43 | the loop computes both sums modulo 255 |
| Crc.Compute | crates/pesit-core/src/crc.rs:11-17 | the check bytes of an FPDU |
| Crc.Verify | crates/pesit-core/src/crc.rs:21-27 | accepted when both sums vanish and there are two octets at least |
| Crc.AppendIsIntact | crates/pesit-core/src/crc.rs:21-33 | what was appended verifies, for every message |
| Crc.SingleByteChange | crates/pesit-core/src/crc.rs:21-43 | one changed octet goes unnoticed if and only if 0x00 became 0xFF or back |
| Crc.Swap | crates/pesit-core/src/crc.rs:21-43 | two exchanged octets go unnoticed if and only if 255 divides difference times distance |
| Crc.NeighbourSwap | crates/pesit-core/src/crc.rs:21-43 | exchanged neighbours go unnoticed if and only if they agree modulo 255 |
| Crc.SumsBySubtraction | crates/pesit-core/src/crc.rs:66-104 | sums kept by conditional subtraction |
| Crc.ConnectExpress | crates/pesit-core/src/crc.rs:66-104 | the Connect:Express form gives the same check bytes on every message |
| Codec.ReadsUnit | crates/pesit-core/src/fpdu.rs:883-932 | a parameter unit is read back, short and long length form |
| Codec.ItemsRoundTrip | crates/pesit-core/src/fpdu.rs:639-775 | the items of a group encode and decode to themselves |
| Codec.ParamsRoundTrip | crates/pesit-core/src/fpdu.rs:639-775 | a conforming parameter list encodes and decodes to itself in the length announced |
| Codec.EncodeThenDecode | crates/pesit-core/src/fpdu.rs:614-816 | every well-formed FPDU encodes to exactly its announced length and decodes to itself |
| Codec.DecodeThenEncode | crates/pesit-core/src/fpdu.rs:689-816 | whatever the strict decoder accepts is ascending, complete and conforming, and re-encodes and re-decodes to the same FPDU |
| Fpdu.KindCodes | crates/pesit-core/src/fpdu.rs:23-107 | kinds and their code pairs correspond one to one |
| Fpdu.AcksAnswer | crates/pesit-core/src/fpdu.rs:119-165 | the acknowledgements are exactly the answers to other FPDUs, and RCONNECT |
| FpduOps.NumOrder | crates/pesit-core/src/fpdu.rs:936-946 | the high octet of a number comes first |
| FpduOps.NumRoundTrip | crates/pesit-core/src/fpdu.rs:936-946 | every 64-bit number is read back |
| FpduOps.NumLength | crates/pesit-core/src/fpdu.rs:936-940 | a number takes at most k octets if and only if it is below 256^k |
| FpduOps.FpduDraft.Search | crates/pesit-core/src/fpdu.rs:462-470 | the position of a code in canonical order |
| FpduOps.FpduDraft.Set | crates/pesit-core/src/fpdu.rs:462-470 | inserts or replaces one parameter, keeps canonical order and everything else |
| FpduOps.FpduDraft.SetPgi | crates/pesit-core/src/fpdu.rs:521-529 | inserts or replaces a group with its items sorted, keeps canonical order and everything else |
| FpduOps.SortSorts | crates/pesit-core/src/fpdu.rs:521-529 | the sorted items are the same items in ascending order |
| FpduOps.PushUnit | crates/pesit-core/src/fpdu.rs:887-896 | a unit is appended |
| FpduOps.EncodeInto | crates/pesit-core/src/fpdu.rs:639-676 | the encoded FPDU is appended, or the error |
| FpduOps.DecodeParamsOf | crates/pesit-core/src/fpdu.rs:689-775 | the parameter loop of the decoder |
| FpduOps.DecodeItemsOf | crates/pesit-core/src/fpdu.rs:689-775 | the item loop of the decoder |
| FpduOps.DecodeWith | crates/pesit-core/src/fpdu.rs:689-775 | the decoder, strict or lenient, with its errors |
| Articles.ArticlePacker.constructor | crates/pesit-core/src/article.rs:222-230 | an empty packer with room for at least one octet per FPDU |
| Articles.ArticlePacker.Push | crates/pesit-core/src/article.rs:240-276 | what is held and what goes out after one more article; `Articles.PackedTightly` says of a whole run that no room is wasted |
| Articles.ArticlePacker.Flush | crates/pesit-core/src/article.rs:280-284 | what was held goes out, nothing is held |
| Articles.ArticlePacker.FlushInto | crates/pesit-core/src/article.rs:286-299 | the same, appended |
| Articles.ArticlePacker.SegmentInto | crates/pesit-core/src/article.rs:240-276 | the chunk loop emits first, middle and last segments |
| Articles.ExtractArticles | crates/pesit-core/src/article.rs:312-340 | the loop over length prefixes, malformed ones refused |
| Articles.Reassembler.Feed | crates/pesit-core/src/article.rs:387-430 | articles completed by an FPDU, the segments held, the errors |
| Articles.PackThenReassemble | crates/pesit-core/src/article.rs:217-430 | any articles packed come back in order, with an error exactly when a segmented one exceeds the limit |
| Articles.PushFeeds | crates/pesit-core/src/article.rs:240-276 | the FPDUs of one push complete articles, never leaving one half sent |
| Articles.SegmentsFeed | crates/pesit-core/src/article.rs:387-430 | segments are admitted exactly when the whole article is within the limit |
| Articles.PackedSizes | crates/pesit-core/src/article.rs:217-299 | every FPDU is within the size packed for, carries 1 to 255 articles, and no article count when only one may share it |
| Articles.PackedTightly | crates/pesit-core/src/article.rs:256-266 | two neighbouring FPDUs of a run waste nothing: the first holds 255 articles, or six octets, two and its length for each of its articles, and two and the length of the next exceed the size; segments but the last are full |
| Entities.SplitEntity | crates/pesit-core/src/frame.rs:11-51 | the splitting loop, with its errors |
| Entities.NextLen | crates/pesit-core/src/frame.rs:11-51 | the length of the next FPDU, its check bytes verified |
| Entities.SplitPacked | crates/pesit-core/src/frame.rs:11-51 | every packed entity splits into its FPDUs |
| Entities.EntityRoundTrip | crates/pesit-core/src/frame.rs:11-132 | every entity of well-formed FPDUs decodes to them in order |
| Entities.DamageDetected | crates/pesit-core/src/frame.rs:11-51 | one changed octet behind the length field is a transmission error unless it turned 0x00 into 0xFF or back |
| Entities.ShippedEntities | crates/pesit-io/src/datapath.rs:385-394 | under the send-when-full rule every entity is non-empty, within its size, of one FPDU with check bytes, and the FPDUs keep their order |
| Entities.EntitiesCrowded | crates/pesit-core/src/frame.rs:94-109 | two neighbouring entities that need not be sent at once waste nothing: with check bytes they hold one FPDU, else the next did not fit, or no octet of data would have |
| Entities.EmptyEntity | crates/pesit-io/src/datapath.rs:385-394 | an empty entity is sent if and only if one FPDU alone exceeds the size |
| Entities.EntityBuilder.constructor | crates/pesit-core/src/frame.rs:73-80 | an empty builder |
| Entities.EntityBuilder.FitsLen | crates/pesit-core/src/frame.rs:94-99 | what fits: with check bytes one FPDU only |
| Entities.EntityBuilder.RemainingLen | crates/pesit-core/src/frame.rs:103-109 | room left for an FPDU |
| Entities.EntityBuilder.Push | crates/pesit-core/src/frame.rs:112-132 | the FPDU is appended with its check bytes |
| Entities.EntityBuilder.Take | crates/pesit-core/src/frame.rs:153-156 | the entity is handed over and the builder emptied |
| Entities.EntityBuilder.SendThenPush | crates/pesit-io/src/datapath.rs:385-391 | the loop's rule for an FPDU that does not fit |
| Transport.FrameWriter.WriteEntity | crates/pesit-io/src/transport.rs:172-187 | the octets written for an entity, or refused as too long |
| Transport.FrameReader.ReadEntity | crates/pesit-io/src/transport.rs:79-145 | the next entity of the stream in either framing, pre-connection first, with its errors |
| Transport.FrameReader.ReadRawFpdu | crates/pesit-io/src/transport.rs:114-144 | a raw FPDU delimited by its own length, check bytes probed in the first one |
| Transport.LengthPrefixedRoundTrip | crates/pesit-io/src/transport.rs:79-187 | entities written behind length prefixes are read back in order if and only if each is non-empty and within the limit and the first has none of those lengths |
| Transport.EmptyEntityUnread | crates/pesit-io/src/transport.rs:103-112 | an empty entity ends the reading with an error |
| Transport.MistakableLengths | crates/pesit-io/src/transport.rs:79-100 | with exactly three first lengths the reader returns the opening of the stream, length octets included, as a pre-connection message |
| Transport.RawRoundTrip | crates/pesit-io/src/transport.rs:114-187 | FPDUs written raw are found again by their length field, also when check bytes are first learnt from the CONNECT |
| Transport.RawBoundaries | crates/pesit-io/src/transport.rs:172-187 | raw framing leaves no trace of entity boundaries |
| Transport.SealedDecodes | crates/pesit-core/src/frame.rs:54-59 | each raw entity decodes to the FPDU sent |
| Links.Link.QueueEntity | crates/pesit-io/src/link.rs:165-172 | an entity is queued FPDU by FPDU, up to the first that does not decode |
| Links.Link.Recv | crates/pesit-io/src/link.rs:124-133 | the next FPDU of the queue or of the next entity |
| Links.Link.TryRecv | crates/pesit-io/src/link.rs:136-158 | the same without waiting; once an error when the reader has ended |
| Links.QueuesPacked | crates/pesit-io/src/link.rs:165-172 | a well-formed entity is queued whole |
| Links.DeliversInOrder | crates/pesit-io/src/link.rs:113-172 | however FPDUs were grouped, they are handed over one by one in order |
| Links.DrainsInOrder | crates/pesit-io/src/link.rs:113-172 | the whole queue comes out as the FPDUs sent, in order, and nothing is left |
| Shipping.ShippedPrefixed | crates/pesit-io/src/transport.rs:79-187 | FPDUs shipped by the sending rule, written behind length prefixes, read, decoded and queued arrive as they were, in order, each entity within the size |
| Shipping.ShippedRaw | crates/pesit-io/src/transport.rs:114-187 | the same through raw framing, each FPDU found by its own length |
| Cutter.ArticleCutter.constructor | crates/pesit-core/src/article.rs:97-104 | nothing buffered, a record of at least one octet |
| Cutter.ArticleCutter.Push | crates/pesit-core/src/article.rs:107-113 | octets join what is buffered |
| Cutter.ArticleCutter.NextArticle | crates/pesit-core/src/article.rs:116-139 | the next complete article, or none yet, or the record refused; which article a line makes, with either line end, is TextLines.LineEnds |
| Cutter.ArticleCutter.Buffered | crates/pesit-core/src/article.rs:143-145 | how much is buffered |
| Cutter.ArticleCutter.Finish | crates/pesit-core/src/article.rs:148-162 | what the octets left make at end of stream; which article a last line makes is TextLines.LastLine |
| Cutter.NextStable | crates/pesit-core/src/article.rs:116-139 | a complete article does not depend on what follows |
| Cutter.ChunkIndependence | crates/pesit-core/src/article.rs:94-178 | however the stream is pushed and asked, the articles are those of the whole stream |
| Cutter.BinaryTrip | crates/pesit-core/src/article.rs:116-196 | undefined and variable binary files come back octet for octet |
| Cutter.FixedTrip | crates/pesit-core/src/article.rs:116-196 | fixed binary files come back if and only if they fill their last record; otherwise the error tells what is left |
| Cutter.LineTrip | crates/pesit-core/src/article.rs:164-201 | one line comes back if and only if it is kept |
| Cutter.TextTrip | crates/pesit-core/src/article.rs:116-201 | a text file comes back if and only if it is line-feed terminated and every line is kept |
| TextLines.LineEnds | crates/pesit-core/src/article.rs:116-139 | for every line without LF or CR at its end: ended by LF or by CR LF it is cut into the same article, the line, filled with spaces in fixed format, one octet more being taken; a line too long is refused with its length either way |
| TextLines.OneCarriageReturn | crates/pesit-core/src/article.rs:131 | only one CR belongs to a line end, those before it stay in the article |
| TextLines.LastLine | crates/pesit-core/src/article.rs:148-162 | the last line needs no LF, and one CR behind it is dropped |
| TextLines.SameArticles | crates/pesit-core/src/article.rs:116-162 | a text has the same articles and the same error with either line end, whatever its last line |
| TextLines.TextArrives | crates/pesit-core/src/article.rs:116-201 | a text whose lines fit arrives line by line with LF behind each: empty lines as a space in variable format, without trailing spaces in fixed format |
| TextLines.TextComesBack | crates/pesit-core/src/article.rs:116-201 | it arrives as the same lines if and only if every line survives |
| FileIo.FileSource.constructor | crates/pesit-io/src/io.rs:65-79 | a source at the start of its file |
| FileIo.FileSource.Fill | crates/pesit-io/src/io.rs:88-99 | reads something unless at end of file |
| FileIo.FileSource.NextArticle | crates/pesit-io/src/io.rs:103-135 | the next article of the pure cut and the position behind it |
| FileIo.FileSource.Rewind | crates/pesit-io/src/io.rs:141-148 | the next article is the one behind the position |
| FileIo.CutFromOffset | crates/pesit-io/src/io.rs:103-148 | a file from the end of its first k articles is cut into the others |
| FileIo.NextAtOffset | crates/pesit-io/src/io.rs:103-148 | article k starts where those before it end |
| FileIo.ReadRewindRead | crates/pesit-io/src/io.rs:88-148 | reading to the end, rewinding behind article k and reading on gives exactly the articles after k |
| FileIo.FileSink.constructor | crates/pesit-io/src/io.rs:169-201 | a new file, or the partial one cut or extended to the restart position |
| FileIo.FileSink.WriteArticle | crates/pesit-io/src/io.rs:239-255 | the article's octets are appended, nothing is forced to disk |
| FileIo.FileSink.Checkpoint | crates/pesit-io/src/io.rs:257-261 | everything written is on disk, at the position returned |
| FileIo.FileSink.Truncate | crates/pesit-io/src/io.rs:263-270 | the file is cut or extended to the position |
| FileIo.Rewrite | crates/pesit-io/src/io.rs:239-270 | articles written after a truncation replace what followed it |
| Checkpoints.StoreKeeps | crates/pesit-io/src/checkpoint.rs:57-98 | recording and acknowledging lose no point from the acknowledged one on, and drop every one below |
| Checkpoints.MemoryCheckpoints.Record | crates/pesit-io/src/checkpoint.rs:58-61 | a point is recorded, replacing one of its number |
| Checkpoints.MemoryCheckpoints.Get | crates/pesit-io/src/checkpoint.rs:63-68 | a point by number, the beginning for 0 |
| Checkpoints.MemoryCheckpoints.Last | crates/pesit-io/src/checkpoint.rs:70-72 | the point of the highest number |
| Checkpoints.MemoryCheckpoints.LastAcknowledged | crates/pesit-io/src/checkpoint.rs:74-79 | the acknowledged point while it is there |
| Checkpoints.MemoryCheckpoints.Acknowledge | crates/pesit-io/src/checkpoint.rs:81-91 | the acknowledged number rises and lower points go |
| Checkpoints.MemoryCheckpoints.Clear | crates/pesit-io/src/checkpoint.rs:93-97 | nothing is left |
| Params.SyncCoding | crates/pesit-core/src/params.rs:106-125 | PI 7 carries every option, whatever follows; two octets leave the window at 0, fewer say nothing |
| Params.SyncAgreement | crates/pesit-core/src/params.rs:145-158 | the agreed option is on exactly when both are, takes the shorter interval and the smaller window of those offered, is the same whoever proposes, and is stable |
| Params.CompressionCoding | crates/pesit-core/src/params.rs:180-199 | PI 21 carries every compression, and which values are read as which |
| Params.CompressionAgreement | crates/pesit-core/src/params.rs:204-212 | the agreed compression is the greatest both allow |

## Left out

- Sockets, TLS, tasks, time-outs: links are queues, streams are octet sequences.
- Cancellation (IDT): neither side's own interruption nor the other's is a step of the data phase; `Dialogues` follows it through the automata.
- RESYN from the sending side, which the receiving loop also answers: the sending loop never issues one.
- RESYN that reaches a sender after DTF.END: it ends the attempt as a failure of the sender.
- F.MESSAGE, RELEASE and ABORT beside a transfer: `Messages` has the FPDUs of a message, `Dialogues` the exchanges, `Session` neither.
- Pre-connection beyond its recognition in a stream.
- EBCDIC, diagnostics text, the meaning of file attributes, identifiers and passwords: texts are octets as `text` leaves them, without trailing blanks.
- Builders: the parameters of an FPDU are given in canonical order, in which the program sets them; that setting them in any order comes to the same is `FpduOps.FpduDraft.Set`. Of ACK(MSG) nothing is built.
- SessionUnits.MessageTravels: data units, SYN, ACK(SYN) and DTF.END are those of `DataUnits`.
- Dialogues.DialogueKept: what one side does has arrived at the other before the next turn; FPDUs that cross are the subject of `SessionSafety`, and for interruptions of `Dialogues.CollisionLeavesAcks`.
- JSON files of checkpoints, renaming of the partial file, directories: a store is a map, a file an octet sequence.
- VecSource and VecSink, which keep articles in memory for use without files.
- The administration server, web pages, database, schedules, metrics, connectors, cluster election and certificates.
- Damage in the data phase is a mark on a unit; that octets changed behind the length field show is `Entities.DamageDetected`, damage to the length field itself is not part of this model.
- Entities in the data phase are lists of units with their encoded lengths; that such a list becomes octets and comes back is `DataWire.UnitsArrive`. An empty entity adds no unit to the queue of the data phase; the theorems on completion exclude it, and in the others a receiver that stops at one is a receiver that may fail at any time.
- DataLoops.SendLoop.Turn: the source is given as its articles and offsets, the answers of one turn arrive together; the file source itself is `FileIo.FileSource`.
- DataLoops.SendLoop.HandleAsync: IDT, and units the automaton ignores, refuses or takes as ABORT, are not among the answers.
- Both sides are given the same article length limit; a peer with another one is not part of this model.
- WholeTransfer.FileGetsThrough: restarts from the beginning; restarts from a point are `DataProgress.RestartCompletes`.
- DataProgress.RestartCompletes: a restart from a point asks for covered articles or no vertical coding; under other coding `DataAgreed.RestartIsRight` says what completion leaves, not that it is reached.
- DataAgreed.AgreedDelivery: damage answered by RESYN is not among its runs; `DataResults.ExactDelivery` has it, under covered articles or no vertical coding.
- DataLastPoint.LastPointKept: a sender that clears its store at its own end of the transfer, or starts from the beginning where no receiver has started, is not among its runs; either leaves the receiver with a point the sender has not got.
- Session: one transfer in an attempt, refusal only in answer to CREATE or SELECT, and data units as their counts; the data phase proper is `DataPhase`.
- Articles.PackThenReassemble: sizes up to 65535 octets, which the two octets of an entity size and of an FPDU length allow; with more room for one FPDU the two-octet article lengths of a packed one would wrap.
- FileIo.FileSource.Fill: how many octets a read gives is left open.
