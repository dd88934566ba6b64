# Mbuni, modelled in Dafny

Mbuni is an MMS gateway: an MMSC that takes multimedia messages in, keeps them in file queues, bills them,
delivers them to handsets, e-mail and other MMSCs, and an mmsbox that does the same for content providers.
This project models its store-and-forward engine and its codecs and proves what they promise, over every
input, every interleaving and every run.

| part | modules | program |
|---|---|---|
| File queue under many workers and crashes | QueueProtocol, LockedStore, QueueRefinement, QueueFaults, QueueOnDisk | `mmlib/mms_queue.c`, `mmlib/mms_util.c` |
| Queue file format | Envelopes, EnvelopeCodec, EnvelopeRoundTrip, EnvelopeIo, AddressRepair | `mmlib/mms_queue.c` |
| One scan of the queue directories | QueueScan | `mmlib/mms_queue.c` |
| Delivery runs, lives and bounds | Delivery, DeliveryRun, DeliveryLife, DeliveryBounds, DeliveryWorker | `mmsc/mmsglobalsender.c`, `mmsbox/bearerbox.c` |
| Notifying handsets | Notification, NotificationWorker | `mmsc/mmsmobilesender.c`, `mmsc/mmsproxy.c` |
| Nested multipart bodies | Octets, OctetStreams, Multipart, MultipartRoundTrip, MultipartIo | `mmlib/mms_msg.c` |
| Headers and whole messages in binary | WspForms, MmsFields, MmsFieldTrips, HeaderLists, MmsMessages, MmsRoundTrip, MmsMessageTrips, MmsNormalForm, MmsIo | `mmlib/mms_msg.c` |
| Message boxes | MmBoxIndex, MmBox, MmBoxIo, MmBoxLocking | `mmlib/mms_mmbox.c` |
| Content adaptation | Adaptation, AdaptationProofs, AdaptationTwice, AdaptationIo | `mmlib/mms_uaprof.c` |
| Lock monitor for Solaris | LockMonitor | `mmlib/mms_util.c` |
| Identifiers sent to the outside | Identifiers | `mmlib/mms_util.c`, `mmsc/mmsc_cfg.c` |
| Header parameters and content types | ParamLists, ParamTrips, ContentTypes, StrippingAgain | `mmlib/mms_util.c` |
| PostgreSQL work list | WorkList | `extras/pgsql-queue/mms_pgsql_queue.c` |
| Strings, tables | Wrappers, Text, StringTable | gwlib, `mmlib/mms_strings.c` |

How the parts are modelled:

- The queue is a state machine at the level of system calls: names, inodes, bytes, open descriptors, locks and
  a program counter for each worker. Any number of workers interleave, and any may crash between two calls.
  It is shown to be a refinement of a store of whole entries that one worker holds at a time.
- A delivery run is a trace of what it does to the world (bills, sends, writes, removal). The transports, the
  billing module, the clock and the disk are parameters that may answer anything. A life is any sequence of
  runs, runs cut short, acknowledgements, cancels and replaces.
- Codecs are pairs of functions; loops that the program writes as loops are methods proved against them.
- Octet strings are strings of characters below 256. Numbers are unbounded and the C widths are written out
  where they matter: `long` and `unsigned long` in the envelope, the decoder's `int` lengths, five-octet uintvars.

## Findings

What the program does not promise in general, with an input that shows it and the exact condition under which
the promise holds.

| promise | fails for | condition proved |
|---|---|---|
| A queue file has one owner. | flock fails hard on a file that mkqf has just made: mkqf removes a name that another worker owns, and a third makes it anew (`QueueFaults.HardFailureBreaksExclusion`). | `QueueFaults.ExclusionIffFreshFilesLock` |
| A crash leaves the last or the next version. | A write to the temporary file stores less than it was given. `_putline` results are ignored, and the short file is renamed over the good one (`QueueFaults.ShortWriteBreaksStore`). | `QueueFaults.StoreIffNoFaults`, `QueueOnDisk.QueueSafeIff`, `MmBoxLocking.IndexSafeIff` |
| A queue entry reads back as written. | Addresses that are not valid are rewritten by the reader, a zero expiry becomes a week, bills are rounded to thousandths. | `EnvelopeRoundTrip.RoundTripIffSettled` |
| Address repair settles after one read. | An address that starts with `@` and has no other `@` gets another `@unknown` on every read. | `AddressRepair.RepairSettlesIff`, `QueueOnDisk.OneReadSettlesIff` |
| The attempt limit bounds an entry's life. | Billing answers -2, or the mmsbox cannot load the message, run after run (`DeliveryBounds.StalledLifeGoesOn`). | `DeliveryBounds.LifeBoundedIff`; with one answered run past the limit, `DeliveryBounds.AnsweredLifeEnds` |
| sendNotify gives its envelope back once. | The recipient is not provisioned and the entry outlives the run: the envelope is let go and then used again. | `Notification.DisposedOnceIff` |
| Index sizes are the stored sizes. | A change is cut between the new data file and the new index. | `MmBox.SizesStayRightIff` |
| A message id leads back to its entry. | No MMSC name is given and the entry is in a subdirectory: the first dash of the entry is taken for a separator. | `Identifiers.MsgIdIff` |
| A transaction id leads back to its entry. | The MMSC name contains a dash. | `Identifiers.TransIdIff` |
| An MM4 transaction id leads back to recipient and entry. | Recipient or MMSC name contains a dash, or the recipient is not in normal form. | `Identifiers.Mm4Iff`, `Identifiers.Mm4NumberIff` |
| Previously-Sent-By keeps counter and address apart. | The text behind the counter starts with a digit: `1 5551234` comes back as `15551234`. | `MmsFieldTrips.CounterSettlesIff` |
| Header texts survive the binary form. | A text that starts with `"` or with octet 127 loses that character. | `MmsFieldTrips.TextUnchangedIff` |
| A parameter list comes back as printed. | A value that is in quotes and needs none comes back without them (`StrippingAgain.QuotesAreLost`). | `ParamTrips.ParamsRoundTripIff` |
| Fixing up a received message again changes nothing. | The content type `t; x=""a""` is printed as `t; x="a"`, and at the next fix-up as `t; x=a` (`StrippingAgain.QuotesSettleLate`); `t; a=x"y; b=z"u` changes back and forth for ever (`StrippingAgain.HeadersOscillate`). | `MmsMessageTrips.FixupSettlesIff`, `ContentTypes.StripSettlesIff` |
| Encoding walks exactly the headers of a message. | Several content types, the first no DRM type: the headers are counted before all but one of them go, and the loop runs past the end of the list (`ContentTypes.OneTypeIsLeft`). | `ContentTypes.StripCountsIff` |
| Adapting an adapted message changes nothing. | A scaled image that is still too large, or a text put in for removed content in a charset that the handset does not take. | `AdaptationTwice.TwiceIff` |
| A multipart tree survives. | A container that has a body, or a container type with parameters and parts inside. | `MultipartRoundTrip.RoundTripIff` |
| A scan hands out all that is due. | A directory does not open (the rest of the stack waits for the next pass), or no sender thread is alive. | `QueueScan.Runner.Pass` |

## Model

| member | source | states |
|---|---|---|
| QueueOnDisk.QueueRunRefinesStore | mmlib/mms_queue.c:401-578 | In every run of any number of workers and crashes, each queue file is one whole envelope or nothing readable, has at most one owner, and changes only from the version its owner read; for the real file format. |
| QueueOnDisk.QueueSafeIff | mmlib/mms_queue.c:142-150 | The queue keeps those promises exactly when no write falls short and flock does not fail on files just made. |
| QueueOnDisk.OneReadSettlesIff | mmlib/mms_queue.c:243-389 | After one read an envelope is unchanged by all later writes and reads, exactly when none of its addresses grows. |
| QueueProtocol.NextKeepsInv | mmlib/mms_queue.c:188-240 | Every system call of every worker keeps locks exact, entries whole or unreadable, and temporary files private. |
| QueueRefinement.RunRefinesStore | mmlib/mms_queue.c:401-578 | Every run of the protocol is a run of the locked store, for any codec whose cut files are unreadable or whose empty file stands for something. |
| QueueRefinement.InvImpliesExclusive | mmlib/mms_util.c:1128-1163 | No two workers own a name, and the owner's lock is on the inode that the name points to now. |
| QueueRefinement.StaleUntilTurnedAway | mmlib/mms_util.c:1128-1147 | A worker that opened or locked a replaced or removed inode never comes to own the name, however long it takes. |
| QueueRefinement.ActionRefines | mmlib/mms_queue.c:554-571 | Each system call is one operation of the store: acquire, replace, delete, drop, create, or nothing. |
| QueueFaults.ExclusionIffFreshFilesLock | mmlib/mms_queue.c:629-634 | Exclusion in every run holds exactly when flock never fails hard on a file that was just made, or files are not made that way. |
| QueueFaults.HardFailureBreaksExclusion | mmlib/mms_queue.c:629-634 | A run in which it fails and two workers own one name. |
| QueueFaults.StoreIffNoFaults | mmlib/mms_queue.c:434-571 | Holders have current versions and no file has two owners, in every run, exactly without short writes and without such failures. |
| QueueFaults.ShortWriteBreaksStore | mmlib/mms_queue.c:142-150 | A run in which a short write makes an entry unreadable while its owner believes it written. |
| QueueRefinement.ChangesAreHeld | mmlib/mms_queue.c:401-578 | In every run, an entry that changes or goes does so at the hands of the one worker that has it, from the version that was on disk to the one that worker has then. |
| QueueRefinement.HeldIsOnDisk | mmlib/mms_queue.c:401-578 | In every run, as long as a worker has an entry, its version is the one on disk, and nobody else has it. |
| EnvelopeRoundTrip.RoundTripIffSettled | mmlib/mms_queue.c:243-380 | Reading what was written gives the same envelope, all fields, recipients with their marks and headers in order, exactly for settled envelopes. |
| EnvelopeRoundTrip.ReadsBackNormal | mmlib/mms_queue.c:243-380 | What any storable envelope reads back as. |
| EnvelopeRoundTrip.CutFileIsRejected | mmlib/mms_queue.c:385-389 | No proper prefix of a queue file is accepted. |
| EnvelopeCodec.AmountRoundTrip | mmlib/mms_queue.c:547-550 | A bill prints and parses to itself, rounded to thousandths. |
| EnvelopeIo.ReadEnvelope | mmlib/mms_queue.c:243-389 | The reading loop computes the decoder's envelope, or nothing without an end line. |
| EnvelopeIo.WriteEnvelope | mmlib/mms_queue.c:434-552 | The writing sequence appends exactly the encoded envelope. |
| AddressRepair.RepairSettlesIff | mmlib/mms_util.c:1295-1320 | A repaired address is left alone by the next repair, exactly unless it is of the growing kind. |
| StringTable.WordRoundTrip | mmlib/mms_strings.c:113-145 | A number's word leads back to the number in a table without duplicates. |
| QueueScan.Runner.Pass | mmlib/mms_queue.c:1128-1166 | A pass reads every directory once and hands out every due entry once, letting go of the others, exactly when all directories open and there is a thread or nothing due; threads are served evenly; a pass that stops at a closed directory has handed out nothing twice. |
| QueueScan.Runner.RunDir | mmlib/mms_queue.c:1054-1126 | One directory: its due entries handed out, the others let go, its directories put on the stack, or why not. |
| QueueScan.Runner.Hand | mmlib/mms_queue.c:1090-1111 | An entry goes to exactly one live thread, in turn, or is let go if there is none; counts differ by at most one. |
| DeliveryWorker.QueueEntry.SendMsg | mmsc/mmsglobalsender.c:69-463 | The delivery loop, updating the envelope in place, does exactly what the trace specification says. |
| DeliveryWorker.QueueEntry.QueueUpdate | mmlib/mms_queue.c:937-959 | An entry without pending recipients is removed, any other written with a positive expiry. |
| DeliveryRun.RunGood | mmsc/mmsglobalsender.c:128-458 | Every run tries only pending recipients, in order and once each; records each success and bill by the very next write; writes only versions in which nobody becomes pending again; gives the envelope back exactly once, last. |
| DeliveryLife.OnlyLastIsAhead | mmsc/mmsglobalsender.c:439-444 | A crash anywhere leaves at most one recipient that was served and is still recorded pending. |
| DeliveryLife.LifePays | mmsc/mmsglobalsender.c:366-406 | Over any life a recipient is served, and a bill raised, at most once more than there are crashes. |
| DeliveryLife.SettledStaysSettled | mmsc/mmsfromemail.c:426-431 | A settled recipient stays settled through any runs, crashes, acknowledgements, cancels and replaces, and is never sent to. |
| DeliveryBounds.SurvivorCounts | mmsc/mmsglobalsender.c:451-458 | A surviving run raises the attempts by exactly one and sets the next start by the back-off. |
| DeliveryBounds.HopelessRunEnds | mmsc/mmsglobalsender.c:138-150 | A run that gets to the recipients of an expired or exhausted entry removes it. |
| DeliveryBounds.BilledLifeEnds | mmsc/mmsglobalsender.c:138-150 | An entry that needs no billing is gone within the runs its attempt limit allows. |
| DeliveryBounds.StalledLifeGoesOn | mmsc/mmsglobalsender.c:111-117 | Unanswered billing, or an mmsbox message that does not load, lets an entry survive any number of runs. |
| DeliveryBounds.LifeBoundedIff | mmsc/mmsglobalsender.c:111-150 | The attempt limit bounds a pending entry's life whatever the world answers, exactly at the MMSC for entries that need no billing. |
| DeliveryBounds.AnsweredLifeEnds | mmsbox/bearerbox.c:1375-1554 | At either gateway, billed or not, one answered run past the attempt limit ends the entry. |
| DeliveryBounds.BackOffGrows | mmsc/mmsglobalsender.c:451-458 | After k runs the next one starts no earlier than the first plus the growing back-offs. |
| DeliveryBounds.FreshBackOff | mmsc/mmsglobalsender.c:451-458 | For a fresh entry that sum is the back-off times k(k+1)/2. |
| Notification.TouchedIsNeverPushed | mmsc/mmsmobilesender.c:196-206 | Once a fetch, forward, store or non-retrieved response is on record, no later run pushes a notification, whatever runs, crashes and requests follow. |
| Notification.PushesAreBounded | mmsc/mmsmobilesender.c:22-39 | Pushes over a whole life stay within the attempts left, plus one for each crash between a push and its record. |
| Notification.NotifySilentUnless | mmsc/mmsmobilesender.c:176-331 | A run either is one push and its record, or pushes nothing and writes nothing younger. |
| Notification.DisposedOnceIff | mmsc/mmsmobilesender.c:242-297 | The envelope is given back exactly once, exactly unless the entry outlives the refusal of an unprovisioned recipient. |
| Notification.FetchDisposesOnceIff | mmsc/mmsproxy.c:389-393 | The fetch handler gives it back exactly once, exactly when a recipient is pending. |
| Notification.RequestsDisposeOnce | mmsc/mmsproxy.c:924-992 | In every life of an entry created for somebody a recipient stays pending while it exists, so each fetch, response, forward, store or delete gives the envelope back exactly once. |
| Notification.DeleteEnds | mmsc/mmsproxy.c:1275-1287 | A delete request always ends the entry. |
| Notification.ExpiredEntryEndsIff | mmsc/mmsmobilesender.c:176-182 | The first run past the expiry removes an entry exactly when no recipient but the first is pending. |
| NotificationWorker.SendNotify | mmsc/mmsmobilesender.c:136-394 | The code with its early exits does exactly what the trace specification says. |
| Octets.UintVarRoundTrip | mmlib/mms_msg.c:212-213 | Integers of up to 35 bits read back, and the reader stops right behind them. |
| OctetStreams.ParseContext.GetUintVar | mmlib/mms_msg.c:110-111 | The scan of the parse context, which looks past the limit first, equals reading within the limit. |
| MultipartRoundTrip.RoundTripIff | mmlib/mms_msg.c:92-224 | Decoding an encoded tree gives the tree and consumes exactly its octets, exactly for trees of normal shape with stable headers. |
| MultipartRoundTrip.ReencodedIff | mmlib/mms_msg.c:92-224 | What any octets decode to, written again, decodes to the same, exactly when its headers are stable. |
| MultipartRoundTrip.DecodedIsSane | mmlib/mms_msg.c:92-178 | Whatever decodes has normal shape, is no deeper than there are octets, and has no more parts and content than octets were read. |
| MultipartIo.DecodeMultipart | mmlib/mms_msg.c:92-178 | The decoding loop over a limited parse context computes the tree and where it stops. |
| MultipartIo.EncodeMultipart | mmlib/mms_msg.c:180-224 | The encoding loop appends exactly the encoding. |
| WspForms.FormArrives | mmlib/mms_msg.c:289-302 | A short integer, a text or framed data is taken off the front exactly as it was put there. |
| MmsFieldTrips.FieldTrips | mmlib/mms_msg.c:278-632 | Every value of every kind of field arrives as a wire-free specification says, and the reader stops at its end. |
| MmsFieldTrips.TextUnchangedIff | mmlib/mms_msg.c:677-688 | A text field, packed and read off the front of any octets, is what it was exactly when it does not start with a quote character. |
| MmsFieldTrips.TokenUnchangedIff | mmlib/mms_msg.c:717-771 | A token field, packed and read off the front of any octets, is what it was exactly when it is a table word in the table's spelling. |
| MmsFieldTrips.CounterSettlesIff | mmlib/mms_msg.c:834-859 | A counter in front of a text is told apart again exactly when the text starts with no digit. |
| MmsRoundTrip.DecodeStep | mmlib/mms_msg.c:634-666 | A field that makes sense is taken in and reading goes on behind it; one that makes none ends the headers there. |
| MmsRoundTrip.HeadersTrip | mmlib/mms_msg.c:966-1038 | The header decoder finds the headers in sending order and stops exactly at the first octet of the body. |
| MmsMessageTrips.MessageArrives | mmlib/mms_msg.c:1124-1252 | What any message that can be sent arrives as: each header, the order, the content type without its boundary, the body with all its parts, and the fix-ups. |
| MmsMessageTrips.FixupSettlesIff | mmlib/mms_msg.c:1041-1116 | Fixing up a received message again changes nothing exactly when it carries no content, or its content type is a DRM type or spelled as it is printed. |
| MmsNormalForm.NormalFormIff | mmlib/mms_msg.c:1124-1252 | A complete message comes back with the same body and the same headers, none lost, moved so that type, transaction id and version are first and content type last, exactly when it has a body, each other header is in normal form, the content type comes back, and those four occur once. |
| MmsNormalForm.TypeComesBackIff | mmlib/mms_msg.c:966-1038 | Where its coding keeps the content type that is sent, it comes back exactly when stripping it leaves it as it was: once, or twice in a message that carries content. |
| MmsNormalForm.SettledTypeComesBack | mmlib/mms_msg.c:1104-1105 | A DRM type, or a content type in the printer's spelling without a boundary, comes back whatever the message. |
| MmsNormalForm.ArrivesMovedIff | mmlib/mms_msg.c:986-1033 | The headers that arrive are the ones sent, moved, exactly when each is in normal form. |
| MmsNormalForm.MovedLosesNothingIff | mmlib/mms_msg.c:1011-1015 | Moving loses no header exactly when type, transaction id, version and content type occur at most once. |
| MmsIo.EncodeMsgHeaders | mmlib/mms_msg.c:966-1038 | The encoding loop strips the boundary and appends the fields in their order. |
| MmsIo.DecodeMsgHeaders | mmlib/mms_msg.c:634-666 | The decoding loop over the parse context, with its limits and errors, computes headers and stopping place. |
| MmsIo.TakeForm | mmlib/mms_msg.c:289-302 | Reading a field value off the context, limiting it to data and lifting the limit, takes exactly one form, and after an error leaves nothing. |
| MmBoxIndex.RewriteEdits | mmlib/mms_mmbox.c:252-341 | Rewriting the index line by line is editing the list of entries. |
| MmBoxIndex.IndexRoundTrip | mmlib/mms_mmbox.c:292-322 | An index reads back entry for entry, flags included. |
| MmBoxIndex.FlagsRoundTrip | mmlib/mms_mmbox.c:213-239 | Flags that were joined are told apart again. |
| MmBox.BoxStaysIndexed | mmlib/mms_mmbox.c:386-598 | After any operations, complete or cut after any write, the index lists distinct messages that all have their data files; with their sizes if none was torn. |
| MmBox.CutKeepsIndexed | mmlib/mms_mmbox.c:386-598 | A cut operation leaves the old list, or the new one once the index is in place. |
| MmBox.SizesStayRightIff | mmlib/mms_mmbox.c:449-550 | Recorded sizes stay right exactly unless a change is cut between data and index. |
| MmBox.AddAppends | mmlib/mms_mmbox.c:171-178 | A fresh name is not in the index, so adding only appends a line. |
| MmBox.WholeKeepsExact | mmlib/mms_mmbox.c:386-598 | Complete operations keep index and files in exact agreement. |
| MmBoxIo.UpdateIndex | mmlib/mms_mmbox.c:292-331 | The copying loop writes exactly the rewritten index. |
| MmBoxIo.Count | mmlib/mms_mmbox.c:785-794 | The counting loop adds up lines and sizes. |
| MmBoxIo.CountIsStored | mmlib/mms_mmbox.c:761-807 | What is counted from the index is the number and total length of the stored messages. |
| MmBoxIo.MergeFlags | mmlib/mms_mmbox.c:343-384 | The in-place loops compute the merged flag list. |
| MmBoxIo.FlagSetIff | mmlib/mms_mmbox.c:343-384 | A flag is set in the end exactly as the last command about it says, or as before without one. |
| MmBoxLocking.IndexRunRefinesStore | mmlib/mms_mmbox.c:191-211 | With any processes and crashes, an index has one holder at a time and changes only from the version it read. |
| MmBoxLocking.IndexSafeIff | mmlib/mms_mmbox.c:252-341 | That holds exactly when no write to a temporary index falls short. |
| MmBoxLocking.UpdatesAreValid | mmlib/mms_mmbox.c:252-341 | What an update writes is the index of the edited list. |
| AdaptationProofs.ModifyShowsAll | mmlib/mms_uaprof.c:686-1002 | Whatever the converters do, the tree keeps its shape and content ids, and every leaf comes out as text or as a type the handset accepts. |
| AdaptationProofs.LeafIsShown | mmlib/mms_uaprof.c:766-1002 | A leaf counts as unsupported only if its content was removed, which takes a type the handset does not show. |
| AdaptationProofs.UnsupportedIff | mmlib/mms_uaprof.c:766-1002 | A leaf is removed exactly when its type is not shown and its medium cannot be converted, a format is missing, it cannot be measured, or its conversion fails. |
| AdaptationProofs.MixedIff | mmlib/mms_uaprof.c:718-764 | A multipart becomes multipart/mixed without start and type exactly when its start part was removed, it was related without a start, or presentations are not taken. |
| AdaptationTwice.TwiceIff | mmlib/mms_uaprof.c:686-1002 | Adapting an adapted message changes and removes nothing exactly when every text is in a charset of the handset or cannot be brought to one, and every image fits the screen or is left alone by scaling. |
| AdaptationIo.ModifyMsg | mmlib/mms_uaprof.c:718-764 | The loop that adapts parts and puts them back computes the adapted tree. |
| AdaptationIo.FindAccepted | mmlib/mms_uaprof.c:828-839 | The search by hash key and name finds an accepted type exactly when it is listed. |
| AdaptationIo.FindRow | mmlib/mms_uaprof.c:857-864 | The search by hash key finds the same row as the search by name. |
| AdaptationIo.FindTarget | mmlib/mms_uaprof.c:866-878 | The nested search finds the first row of the right medium that the handset lists. |
| AdaptationIo.SameKey | mmlib/mms_uaprof.c:43-53 | Names equal but for case have equal hash keys. |
| LockMonitor.RunsExclude | mmlib/mms_util.c:1013-1103 | In every run no two threads own a file, a thread that returned success has its entry listed, and a waiting thread waits on the condition of a listed owner. |
| LockMonitor.ReleaseWakesAll | mmlib/mms_util.c:940-959 | A release leaves nobody waiting for the file, and the first to look again gets it. |
| LockMonitor.StepsRefineLocks | mmlib/mms_util.c:1040-1103 | Each step takes one free file, frees one of its owner's, or changes no lock. |
| Identifiers.EntryIsFound | mmlib/mms_queue.c:588-640 | From whatever mkqf draws, transaction id, message id and fetch URL lead back to directory and file. |
| Identifiers.MkqfNames | mmlib/mms_queue.c:598-626 | Names and directories made by mkqf have the form the identifiers rely on. |
| Identifiers.QfRoundTrip | mmlib/mms_queue.c:152-180 | A queue identifier leads back to directory and file. |
| Identifiers.TransIdIff | mmlib/mms_util.c:186-197 | A transaction id leads back exactly when the MMSC name contains no dash. |
| Identifiers.MsgIdIff | mmlib/mms_util.c:199-210 | A message id leads back exactly when it names an MMSC or the entry is in no directory. |
| Identifiers.Mm4Iff | mmsc/mmsfromemail.c:392-405 | Recipient and entry come back exactly when neither name contains a dash and the recipient is in normal form. |
| Identifiers.Mm4NumberIff | mmlib/mms_util.c:1273-1292 | Without a unified prefix, normal form means that no prefix to strip is in front. |
| Identifiers.FetchUrlRoundTrip | mmsc/mmsc_cfg.c:608-649 | A fetch URL, whole or as a path, leads back to entry, token and location. |
| Identifiers.DecodeUrl | mmsc/mmsc_cfg.c:714-772 | The index loops compute the decoded URL. |
| ParamTrips.ParamsRoundTripIff | mmlib/mms_util.c:252-285 | A parameter list comes back as printed exactly when names are trimmed tokens without colon and equals sign, values are trimmed and unquoted at the ends or have to be quoted, and no printed parameter has an open quote or an outer semicolon. |
| ParamTrips.CanonicalIff | mmlib/mms_util.c:353-372 | Parameters that are parsed, rid of a boundary and printed are as they were exactly when they are spelled as the printer spells them, without a boundary. |
| ContentTypes.TypeStaysIff | mmlib/mms_util.c:1495-1538 | A content type is printed again as it was exactly when it is trimmed and has no parameters, or has them in the printer's spelling and no boundary. |
| ContentTypes.StripSettlesIff | mmlib/mms_util.c:1495-1538 | Stripping stripped headers changes nothing exactly when the content type left is a DRM type or spelled as it is printed. |
| ContentTypes.OncePrintedIff | mmlib/mms_util.c:1518-1531 | The first printing settles a content type exactly when the print of the parameters that it keeps is one that parses into parameters printed the same. |
| ContentTypes.SurvivorsSettle | mmlib/mms_util.c:1518-1531 | A content type whose parameters, the boundary aside, all come back as printed is settled by the first stripping. |
| ContentTypes.StripKeepsNames | mmlib/mms_util.c:1529-1532 | Stripping neither brings in a header name nor takes one away. |
| ContentTypes.StripCountsIff | mmlib/mms_util.c:1529-1532 | The number of headers stays the same exactly with no, one, or a DRM content type. |
| ContentTypes.SplitHeaderValue | mmlib/mms_util.c:287-308 | The splitting loop stops at the first semicolon outside quotes. |
| StrippingAgain.QuotesSettleLate | mmlib/mms_util.c:238-250 | A value in two pairs of quotes loses one pair each time, for all names and simple values. |
| StrippingAgain.HeadersOscillate | mmlib/mms_util.c:1495-1538 | Among any other headers there are content types that each stripping changes and every second one restores. |
| ParamLists.MakeValueParameters | mmlib/mms_util.c:353-372 | The printing loop computes the printed list. |
| ParamLists.GetValueParameters | mmlib/mms_util.c:252-285 | The parsing loop computes the parsed list. |
| WorkList.NoDuplicates | extras/pgsql-queue/mms_pgsql_queue.c:1120-1235 | In every interleaving no id is listed twice or both listed and taken, and the keys are exactly the ids on their way to a consumer that has not read them. |

## Left out

What the models do not contain:

- Foreign effects: HTTP, SMTP, SMS, UDP and modem traffic, external commands and loaded modules appear only as
  results that may be anything. Delivery reports, CDRs, logs and the SMS sent instead of a notification are not modelled.
- Queue data files: a queue entry's message file is not part of the queue protocol; a failed write of it leaves an
  entry without data.
- Descriptors that leak when a temporary file cannot be locked, and the choice of random names.
- gwlib is not part of this model: its uintvar, field value, value length and text primitives are written from
  WAP-230-WSP, sections 8.1.2, 8.4 and 8.5. Its recovery from malformed integers and frames, dates, content types,
  element descriptors and WSP headers of parts are parameters or undecodable.
- Header names that contain a colon, in messages (in parameter lists they are modelled), and NUL in parameters.
- ContentTypes.StripCountsIff: what gwlib does when `encode_msgheaders` asks for a header behind the last is not part of
  this model; messages for which it would are not encoded.
- MmsNormalForm.TypeComesBackIff: gwlib's coding of content types is a parameter; so is the stripping of the headers of
  parts, as part of the coding of those headers.
- MmsIo.DecodeMsgHeaders: what the data of one field means is a function of the octets within its limit; a number or
  date that comes as a text without its closing NUL is taken for no field.
- The contents of `mms_strings.def` and of the format table: any tables without duplicate words and numbers, with
  tokens on their side of 127.
- MultipartIo.DecodeMultipart: stated for a parse context without stacked limits, which every nested call and every
  message with well-formed headers provides.
- MultipartRoundTrip.RoundTripIff: lengths and counts below 2^31, which the decoder's `int` requires; longer parts read as errors.
- MmsNormalForm.NormalFormIff: the headers must be ones that decode at all; one that does not ends the header block
  where it stands, as `MmsRoundTrip.DecodeStep` says.
- MmsFieldTrips.FieldTrips: counters and dates must be ones that the packing code can read; for others it sends
  uninitialised or missing values.
- EnvelopeRoundTrip.RoundTripIffSettled: strings without NUL, CR and LF; negative or exponent amounts are not modelled.
- Notification.DisposedOnceIff: after the envelope was let go its memory is taken to be intact, as the code takes it.
- MmBoxIndex.RewriteEdits: lines that this program did not write, which sscanf reads with stale variables; the
  temporary copy of a changed data file, and a failing rename.
- MmBoxIo.UpdateIndex: a line that sscanf does not read is taken for an entry with empty fields, where the program has
  those of the line before it.
- MmBoxIo.CountIsStored: overflow of the octet count.
- Identifiers.Mm4Iff: gwlib's normalize_number is a parameter; quotes and blanks around the ids are not modelled.
- WorkList.NoDuplicates: the row locks that keep a message from being delivered twice at once are the database's.
- `mms_mmbox_search` and its paging, mmsbox connection counts and MMC routing, SOAP, SMIL and UAProf parsing,
  configuration, and authentication.
