# Verification of a VNT desktop client

A Dafny model of the stateful cores of a desktop client for virtual networks: resumable file transfer between two
devices, the H.264 bitstream normaliser and pixel conversion of its desktop sharing, its FTP storage backend, its session
and traffic bookkeeping. `dafny verify dfyconfig.toml` checks all of it.

**File transfer.** `Transfer` is the whole protocol as a step relation: sender, receiver, one FIFO channel each way, the
receiver's disk, pauses and cancels by the users, and a network that repeats chunks and cuts at any point, over any
number of sessions. `TransferData`, `TransferTheorems` and `TransferOutcomes` prove what every run keeps and how sessions end.
`Receiver` and `Sender` are the same code as imperative loops on a disk, proved against functions; `ReceiverTheorems`
connects them with each other and with the protocol, and settles which files can be lost. `Names` is the choice of paths,
`Disk` the operations on the residue, `Messages` the decisions shared by both models, `Tcp` the raw channel for large
files. The hash is a function nothing is assumed about; `NoCollision` appears only where equal contents are claimed.

**Desktop sharing.** `NalStream` defines both carriers of NAL units with printers and round trips. `Normaliser` is the
converter with its in-place buffers and the cache kept over calls; `NormaliserTheorems` relates the carriers, conserves
the units, and follows the cache over runs. `Nv12` is the BGRA to NV12 conversion on its reused buffer. `Session` is the
session state machine with calls run to completion and overlapping at the network, `SessionLocks` the same store by
store, one lock at a time.

**The rest.** `Ftp` is path resolution and the operations below a root, `Traffic` the sums over days and the sampling
loop, `Probe` the identity probe's reply.

## Where the code does not do what it promises

Each of these is stated as an exact condition or with a family of inputs.

- A length-prefixed buffer whose first NAL has length 1 is taken for a start-code stream (`DetectionExactly`). An empty
  NAL ends the start-code scan, and zeros before a 3-byte code are taken into it (`AnnexBRoundTrip`).
- A file of other content at the path the user chose can be overwritten exactly when a residue lies beside it that can
  still become the offered content (`LosesExactly`).
- Over TCP the receiver writes from the start of a residue it means to continue, so no non-empty residue is ever
  completed (`ArrivesExactly`). A residue shorter than the file heals with the second attempt; a complete one never does,
  while the sender reports success (`HealsExactly`, `FullResidueStuck`). An empty file does not arrive over TCP either.
- An accept whose answer cannot be sent leaves the session waiting for nothing until a disconnect (`StuckExactly`).
- A disconnect breaks the link between sharing and a stored connection in some continuation exactly when it starts while a
  request, accept or reject is in flight (`DropKeepsLinkExactly`). Store by store the link can break exactly when calls
  that enter sharing and calls that leave it are on their way together, or when those on their way will not bring the
  connection to where they bring the state, as a rejection while a connection is stored (`LinkKeptExactly`,
  `BeginIsSafeExactly`, `RejectionStrays`).
- The comment on the number of days kept says that older history is first merged into the total
  (`src-tauri/src/traffic.rs:46`); the code only drops it, and `DaysMatchSession` says how much the total loses.

## Model

| member | source | states |
|---|---|---|
| NalStream.AnnexBRoundTrip | src-tauri/src/desktop_share/mf_encoder.rs:374-411 | For printed units with non-empty, code-free NALs and any mix of 3- and 4-byte start codes: the scanner returns exactly those NALs if and only if no NAL before a 3-byte code ends in 00 |
| NalStream.PrintRoundTrip | src-tauri/src/desktop_share/mf_encoder.rs:374-411 | A list written with 4-byte start codes parses back to itself exactly when every NAL is non-empty and free of start codes (section B.1.1 of Annex B of ITU-T H.264) |
| NalStream.SplitIsSound | src-tauri/src/desktop_share/mf_encoder.rs:385-410 | Whatever the bytes, every NAL the scanner cuts is non-empty and free of start codes |
| NalStream.AvccSplitsAfter | src-tauri/src/desktop_share/mf_encoder.rs:357-370 | The length-prefixed scanner returns the non-empty NALs of the printed records and then goes on with what follows them (section 5 of ISO/IEC 14496-15) |
| NalStream.LengthFieldIsCode | src-tauri/src/desktop_share/mf_encoder.rs:351-352 | A length field looks like a start code exactly for length 1 |
| Normaliser.UnitEnd | src-tauri/src/desktop_share/mf_encoder.rs:397-400 | The inner scan stops at the first start code or at the end |
| Normaliser.HeaderDecides | src-tauri/src/desktop_share/mf_encoder.rs:414-428 | The first byte decides: types 5, 7 and 8 of Table 7-1 of ITU-T H.264 in its lower five bits, whatever stands in the upper three |
| Normaliser.Encoder.PushNal | src-tauri/src/desktop_share/mf_encoder.rs:414-439 | Cache, output and IDR flag after one NAL: parameter sets are learnt unless the window search finds them, an IDR gets the whole cache in front, the rest is copied |
| Normaliser.Encoder.ConvertAnnexB | src-tauri/src/desktop_share/mf_encoder.rs:379-411 | The in-place scan equals dispatching the NALs of the start-code stream in order, and stops at an empty one |
| Normaliser.Encoder.ConvertRecord | src-tauri/src/desktop_share/mf_encoder.rs:358-370 | One round of the length-prefixed loop: the record dispatched, an empty one passed over, a cut one ends the scan |
| Normaliser.Encoder.ConvertAvcc | src-tauri/src/desktop_share/mf_encoder.rs:357-371 | The length-prefixed loop equals dispatching the records in order |
| Normaliser.Encoder.Convert | src-tauri/src/desktop_share/mf_encoder.rs:344-371 | The format test chooses the scanner; the buffer is dispatched unit by unit in order |
| Normaliser.Encoder.DrainOutput | src-tauri/src/desktop_share/mf_encoder.rs:273-318 | All samples the transform delivers before it is done or fails, in order, empty ones skipped; what they taught stays |
| Normaliser.Encoder.Encode | src-tauri/src/desktop_share/mf_encoder.rs:164-233 | Size check, media failures, retry after draining, the frame with exactly the bytes and the keyframe flag of this call, and the cache kept across calls in every outcome |
| Normaliser.Encoder.Drain | src-tauri/src/desktop_share/mf_encoder.rs:236-250 | Flushing discards the output but keeps what it learns, also when it fails |
| Normaliser.Encoder.Reset | src-tauri/src/desktop_share/mf_encoder.rs:254-260 | Only the cache is cleared |
| NormaliserTheorems.MisreadExactly | src-tauri/src/desktop_share/mf_encoder.rs:350-356 | A length-prefixed buffer is taken for a start-code stream exactly when its first NAL has length 1 |
| NormaliserTheorems.DetectionExactly | src-tauri/src/desktop_share/mf_encoder.rs:350-370 | For non-empty NALs with a non-zero first byte, a length-prefixed buffer is split rightly if and only if its first NAL does not have length 1 or every NAL has |
| NormaliserTheorems.FormatAgreement | src-tauri/src/desktop_share/mf_encoder.rs:344-439 | Length-prefixed and start-code encodings of the same code-free NALs (first length not 1, 3-byte codes only after NALs not ending in 00) give the same cache, output and flag, those of dispatching the list |
| NormaliserTheorems.TruncatedTailIgnored | src-tauri/src/desktop_share/mf_encoder.rs:357-370 | A record cut short at the end of a length-prefixed buffer changes nothing |
| NormaliserTheorems.StreamingAgrees | src-tauri/src/desktop_share/mf_encoder.rs:357-370 | Two well-formed buffers in turn convert like their concatenation when neither starts with a length-1 NAL |
| NormaliserTheorems.BytesAreLists | src-tauri/src/desktop_share/mf_encoder.rs:414-439 | The byte buffers are at all times the printed lists of cached and emitted NALs |
| NormaliserTheorems.CacheOverRuns | src-tauri/src/desktop_share/mf_encoder.rs:417-426 | Over any run of calls: the cache parses back into SPS/PPS NALs, none twice, old ones kept, and every set that came by is found in it |
| NormaliserTheorems.StartCodeSamplesAreSound | src-tauri/src/desktop_share/mf_encoder.rs:353-355 | Start-code samples meet the hypothesis of that run theorem whatever their bytes |
| NormaliserTheorems.DuplicateIsPrefix | src-tauri/src/desktop_share/mf_encoder.rs:419-424 | For NALs obeying section 7.4.1 of ITU-T H.264 the window search reports a repetition exactly when the NAL is a prefix of a cached one |
| NormaliserTheorems.Conservation | src-tauri/src/desktop_share/mf_encoder.rs:224-232 | Parsing a frame back gives the input NALs other than SPS/PPS in order, each once; the keyframe flag holds exactly when one of them has an IDR header byte |
| NormaliserTheorems.KeptByHeader | src-tauri/src/desktop_share/mf_encoder.rs:414-438 | What counts there as other than SPS/PPS: a NAL whose header byte is of neither |
| NormaliserTheorems.ConservationExactly | src-tauri/src/desktop_share/mf_encoder.rs:427-437 | Without the code-free hypothesis the frame parses back into the NALs written exactly when each of them is free of start codes |
| NormaliserTheorems.CacheBeforeEachIdr | src-tauri/src/desktop_share/mf_encoder.rs:427-433 | Parsed back, the whole cache of that moment stands directly before each IDR |
| NormaliserTheorems.SecondPass | src-tauri/src/desktop_share/mf_encoder.rs:379-439 | Feeding a frame back with the resulting cache leaves the cache alone, and reproduces the frame if and only if every IDR already had the final cache |
| Nv12.BgraToNv12 | src-tauri/src/desktop_share/capture.rs:256-308 | For all sizes of at least 1 and a large enough picture: every byte of the reused buffer is overwritten with the fixed-point value of its pixel or 2x2 block (section 2.5 of ITU-R BT.601-7) |
| Nv12.ConvertLuma | src-tauri/src/desktop_share/capture.rs:265-279 | The luma loops fill the first plane, and nothing else, with the pixel formula, edge rows and columns repeated |
| Nv12.ConvertChroma | src-tauri/src/desktop_share/capture.rs:281-307 | The chroma loops fill the second plane with U and V of the block means, interleaved, and leave luma alone |
| Nv12.ChannelIsByte | src-tauri/src/desktop_share/capture.rs:269-274 | Channel c of pixel (x, y) is byte (y * width + x) * 4 + c of the picture, with the last row and column repeated beyond the edge |
| Nv12.LumaFromBytes | src-tauri/src/desktop_share/capture.rs:266-278 | Each luma byte of the result from the three bytes of its pixel: 66 * byte 2 + 129 * byte 1 + 25 * byte 0 |
| Nv12.MeanOfBytes | src-tauri/src/desktop_share/capture.rs:284-299 | The mean of a channel over a 2x2 block is that of the bytes of its four pixels, rounded down |
| Nv12.ChromaFromMeans | src-tauri/src/desktop_share/capture.rs:300-306 | Each pair of chroma bytes of the result, U before V at its row and column, from the three means of its block |
| Nv12.EvenedIs | src-tauri/src/desktop_share/capture.rs:259-260 | Odd sides lose one, but no side gets smaller than 2 |
| Nv12.Luma | src-tauri/src/desktop_share/capture.rs:275-277 | The luma value lies in 16..235, so its clamp never acts, and is within one step of the exact linear form |
| Nv12.ChromaU | src-tauri/src/desktop_share/capture.rs:300-304 | The U value lies in 16..240, so its clamp never acts, with its distance from the exact linear form |
| Nv12.ChromaV | src-tauri/src/desktop_share/capture.rs:300-305 | The same for V |
| Nv12.GreyIsNeutral | src-tauri/src/desktop_share/capture.rs:300-305 | Grey input gives 128 for every chroma byte |
| Nv12.ConvertedIsUnique | src-tauri/src/desktop_share/capture.rs:261-307 | The output depends on the picture alone, not on what the reused buffer held |
| Nv12.SizeAgreement | src-tauri/src/desktop_share/capture.rs:243-261 | The buffer has the length the encoder checks for exactly when both sides are at least 2 and the 32-bit product does not wrap |
| Names.StemAndExtension | src-tauri/src/file_transfer/receiver.rs:107-114 | The stem and the extension, empty or starting at the last dot, make up the name; there is none exactly without a dot, for a lone leading dot, and for two dots |
| Names.ResolveSavePath | src-tauri/src/file_transfer/receiver.rs:102-123 | The search ends in any finite directory with the wanted path if free, else the candidate with the least free number, which does not exist |
| Names.FreePathUnique | src-tauri/src/file_transfer/receiver.rs:102-123 | That answer is the only one |
| Names.CandidatesDiffer | src-tauri/src/file_transfer/receiver.rs:117 | Different numbers give different candidate names |
| Names.CandidateParts | src-tauri/src/file_transfer/receiver.rs:107-117 | A candidate has the wanted name's stem followed by the number, and its extension, for every wanted name but two dots |
| Names.FirstFreeIsChosen | src-tauri/src/file_transfer/receiver.rs:115-122 | With the wanted name and the candidates 1 to n - 1 taken and candidate n free, the search gives exactly that |
| Names.SomeCandidates | src-tauri/src/file_transfer/receiver.rs:648-666 | The names expected by the tests |
| Names.TakenBound | src-tauri/src/file_transfer/receiver.rs:115-122 | Pigeonhole: no more candidates in a row are taken than the directory has entries |
| Names.FreePathIgnoresResidues | src-tauri/src/file_transfer/receiver.rs:102-130 | The chosen path does not depend on residues if and only if the wanted name does not itself end in .partial |
| Names.LaterAttemptFindsResidue | src-tauri/src/file_transfer/receiver.rs:102-130 | A later attempt chooses the same path and so finds the residue the first one left |
| Disk.Disk.ResumeOffset | src-tauri/src/file_transfer/resumable.rs:25-34 | The offset is the length of the residue, 0 without one |
| Disk.Disk.ValidateResume | src-tauri/src/file_transfer/resumable.rs:37-45 | A residue longer than the file is removed, others stay; the offset is what is left |
| Disk.Disk.OpenPartial | src-tauri/src/file_transfer/resumable.rs:13-22 | Opening creates an empty residue but never truncates one |
| Disk.Disk.WriteChunk | src-tauri/src/file_transfer/resumable.rs:48-61 | Writes in place at the given offset and nothing else |
| Disk.WriteAtPoint | src-tauri/src/file_transfer/resumable.rs:48-61 | Byte by byte: what was written, around it what was there, zeros in a gap |
| Disk.Disk.Finalize | src-tauri/src/file_transfer/resumable.rs:64-74 | The final path gets the residue and the residue goes; without a residue the old final file is still removed |
| TransferData.KeepData | src-tauri/src/file_transfer/receiver.rs:133-239 | Every step of both ends, the channel and the network keeps: the residue is the starting residue continued by the source, and the queue holds exactly the source between what was received and what was sent |
| TransferTheorems.RunKeepsInv | src-tauri/src/file_transfer/receiver.rs:133-239 | The whole invariant of the protocol over any number of sessions, cut anywhere, with repeated chunks, pauses, cancels on either side and crashes in mid-write |
| TransferTheorems.ReachableIsFine | src-tauri/src/file_transfer/receiver.rs:133-239 | It holds in every state reached from any disk |
| TransferTheorems.StartOffsetsAgree | src-tauri/src/file_transfer/sender.rs:101-122 | Both ends start at the same offset, the length of the residue |
| TransferTheorems.StepKeepsPrefix | src-tauri/src/file_transfer/receiver.rs:178-180 | From a residue that is a prefix of the source, each step leaves a prefix and shrinks it only for a cancel by the receiving user or because the source is at the final path |
| TransferTheorems.RunKeepsPrefix | src-tauri/src/file_transfer/receiver.rs:133-239 | Over any run of sessions the residue is always a prefix of the source |
| TransferTheorems.PrefixNeverFails | src-tauri/src/file_transfer/receiver.rs:218-235 | Such a residue never fails the check |
| TransferTheorems.FinalOnlyGood | src-tauri/src/file_transfer/receiver.rs:218-238 | From any residue and over any run: the final path holds what it held, nothing, or content with the offered hash |
| TransferTheorems.FinalIsSource | src-tauri/src/file_transfer/receiver.rs:215-238 | From no residue or a prefix and over any run: the final path holds what it held, nothing, or the source itself; a completed receive leaves the source, or what was found there with the offered hash |
| TransferTheorems.SenderSuccessJustified | src-tauri/src/file_transfer/sender.rs:171-188 | In every run from any disk the sender reports success only if the receiver has held content with the offered hash, checked or found |
| TransferTheorems.RunShowsOutcome | src-tauri/src/file_transfer/mod.rs:793-840 | In every run, late progress reports included: a finished send shows success, cancellation or failure exactly as it ended unless its user called; a finished receive shows its own end, and a refusal stays one |
| TransferOutcomes.FlagStaysPaused | src-tauri/src/file_transfer/mod.rs:406-425 | In every interleaving with late progress updates and repeated pauses, short of a cancel: a send ended by the pause flag stays Paused, writes no record and takes the paused branch |
| TransferOutcomes.PausedReceiverEnds | src-tauri/src/file_transfer/daemon_listener.rs:768-782 | Undisturbed, the receiver of a paused send ends Paused with a prefix of the source kept, or Completed with the source in place or found there with the offered hash; with the source in any case if no other content has its hash |
| TransferOutcomes.PausedReceiverSettles | src-tauri/src/file_transfer/receiver.rs:187-197 | Nothing blocks it: reading what is queued ends the receiver |
| TransferOutcomes.AttemptOutcome | src-tauri/src/file_transfer/receiver.rs:218-238 | A finished attempt that nobody disturbed has put content of the offered hash in place, or failed the check from a residue that was no prefix; either way the residue is gone |
| TransferOutcomes.TwoAttempts | src-tauri/src/file_transfer/daemon_listener.rs:795-817 | From any stale residue and under every schedule, of two undisturbed attempts one leaves content of the offered hash |
| TransferOutcomes.AttemptRuns | src-tauri/src/file_transfer/sender.rs:72-189 | From every idle state, whatever the residue, an attempt runs to its end on both sides |
| TransferOutcomes.TwoAttemptsSuffice | src-tauri/src/file_transfer/resumable.rs:37-45 | So two attempts in a row always end with the offered hash at the final path, and with the source if no other content has its hash |
| Receiver.TakeTurn | src-tauri/src/file_transfer/receiver.rs:153-213 | One round of the loop on the disk: flag, chunk (new, repeated, ahead), completion, cancel with acknowledgement, lost connection, poll |
| Receiver.RoundByCause | src-tauri/src/file_transfer/receiver.rs:153-213 | Each way a round can end the loop, move it or answer, if and only if its cause is there |
| Receiver.IdleRound | src-tauri/src/file_transfer/receiver.rs:201-212 | A poll of the unset flag, a message of another kind or a chunk of another transfer, in any place, changes neither outcome nor answers |
| Receiver.OnlyTellingRoundsCount | src-tauri/src/file_transfer/receiver.rs:168-212 | All such rounds can be left out at once |
| Receiver.ReceiveLoop | src-tauri/src/file_transfer/receiver.rs:149-214 | The loop on the disk equals the fold of those rounds, with everything it says |
| Receiver.LoopReturnsIs | src-tauri/src/file_transfer/receiver.rs:181-239 | What the loop reports: the count exactly after a completion, the error of the round that broke it, else a lost connection |
| Receiver.ReceiveQuic | src-tauri/src/file_transfer/receiver.rs:133-239 | Re-planning for another path, the loop, the whole-file check, the verdict, the rename |
| Receiver.LoopOnlyAppends | src-tauri/src/file_transfer/receiver.rs:168-180 | Started at the end of the residue, the loop only ever adds behind it, whatever arrives |
| Receiver.LoopContinuesSource | src-tauri/src/file_transfer/receiver.rs:168-180 | If chunks carry the bytes of the source, in any order and number, the residue is the old one continued by the source |
| Receiver.PlanReceive | src-tauri/src/file_transfer/receiver.rs:52-56 | The plan is the length of the validated residue |
| Receiver.StartsAtResidueEnd | src-tauri/src/file_transfer/receiver.rs:139-150 | Whatever was planned for another path, the loop starts at the end of the residue beside the save path, which is kept, and touches no other file before |
| Receiver.FindDuplicate | src-tauri/src/file_transfer/receiver.rs:60-78 | Found exactly when a file of that name, size and hash is there with no residue beside it |
| Receiver.ResolveConflict | src-tauri/src/file_transfer/receiver.rs:82-97 | The chosen path is kept exactly when free, beside a residue, or already of the offered content; else the free-name search decides |
| Receiver.FinishReceive | src-tauri/src/file_transfer/daemon_listener.rs:715-849 | Status and clean-up after a receive |
| Receiver.EndsByCause | src-tauri/src/file_transfer/daemon_listener.rs:715-849 | Completed, paused, cancelled and failed each exactly for its causes; the residue goes exactly after a cancel or a failed check |
| Receiver.HandleOffer | src-tauri/src/file_transfer/daemon_listener.rs:181-407 | An offer from filter to clean-up: an instant send exactly for a present file of the offered name, size and hash with no residue, writing nothing; a positive verdict exactly for that or a successful receive, and then content of the offered hash is on the disk |
| Receiver.Execute | src-tauri/src/file_transfer/daemon_listener.rs:409-440 | Accept with the planned offset, receive, clean up: the disk, the status and every message said |
| Receiver.ConversationTells | src-tauri/src/file_transfer/receiver.rs:149-238 | All that is said: the accept of the residue's length first, then cancels, and last a verdict, positive exactly on success and negative exactly after a failed check |
| ReceiverTheorems.ExecuteLeavesOthers | src-tauri/src/file_transfer/daemon_listener.rs:409-440 | A receive changes no file but the save path and its residue |
| ReceiverTheorems.ExecuteFinal | src-tauri/src/file_transfer/resumable.rs:64-74 | The save path changes exactly on success, and then holds content of the offered hash with no residue beside it |
| ReceiverTheorems.ResidueOnlyGrows | src-tauri/src/file_transfer/daemon_listener.rs:795-817 | A residue that survives is the planned one with bytes added; it goes exactly on success, after a cancel by either side, or a failed check |
| ReceiverTheorems.ResidueContinuesSource | src-tauri/src/file_transfer/receiver.rs:133-239 | With chunks of the source in any order, what is left or renamed is the residue continued by the source |
| ReceiverTheorems.AutomaticLosesNothing | src-tauri/src/file_transfer/daemon_listener.rs:267-299 | Received at the proposed path, no file of other content is removed or changed |
| ReceiverTheorems.SucceedsExactly | src-tauri/src/file_transfer/receiver.rs:133-239 | Some sequence of arrivals makes a receive succeed if and only if the residue can be continued to content of the offered hash |
| ReceiverTheorems.NothingLostWithoutResidue | src-tauri/src/file_transfer/receiver.rs:82-97 | At a path the user chose with no residue beside it, no file of other content is lost, whatever arrives |
| ReceiverTheorems.LosesInRun | src-tauri/src/file_transfer/receiver.rs:82-97 | In one run a file of other content is lost if and only if it lies at the chosen path, a residue lies beside it, and the transfer succeeds |
| ReceiverTheorems.LosesExactly | src-tauri/src/file_transfer/receiver.rs:82-97 | Before anything arrives: some conversation loses a file of other content if and only if one lies at the chosen path and beside it a residue that can be continued to the offered hash |
| ReceiverTheorems.ResidueCostsAFile | src-tauri/src/file_transfer/receiver.rs:83 | A family of inputs for which that happens |
| ReceiverTheorems.MachineRunsLoop | src-tauri/src/file_transfer/receiver.rs:153-214 | The protocol machine, taking every queued message, does what the imperative loop does |
| ReceiverTheorems.LoopsKeepPrefix | src-tauri/src/file_transfer/receiver.rs:149-214 | However many receive loops write to one residue at once: while nobody deletes it, it stays a prefix of the source and never shrinks |
| ReceiverTheorems.EndToEnd | src-tauri/src/file_transfer/receiver.rs:133-239 | The sender's conversation delivered to the receiver: exactly one accept and one verdict, and the residue continued by the source in place or gone |
| ReceiverTheorems.EndToEndWithPauses | src-tauri/src/file_transfer/receiver.rs:149-214 | The same with idle polls, other messages and chunks of other transfers anywhere between |
| ReceiverTheorems.EndToEndFromPrefix | src-tauri/src/file_transfer/sender.rs:100-172 | From no residue or a prefix, the source is put in place |
| Sender.WaitForAccept | src-tauri/src/file_transfer/sender.rs:349-376 | The first arm that ends the wait decides; messages of other transfers and kinds are passed over |
| Sender.AcceptArms | src-tauri/src/file_transfer/sender.rs:354-371 | Which arms end the wait and how: the accept of this transfer, any rejection or cancel, the flag, the connection |
| Sender.WaitForVerify | src-tauri/src/file_transfer/sender.rs:379-405 | The same for the verdict |
| Sender.VerifyArms | src-tauri/src/file_transfer/sender.rs:384-400 | There a rejection does not end the wait |
| Sender.DecidesInOrder | src-tauri/src/file_transfer/sender.rs:349-405 | Nothing to read is the timeout; otherwise the first arm decides, or the rest does |
| Sender.ArmsThatStop | src-tauri/src/file_transfer/sender.rs:146-157 | While a block waits, exactly a cancel, a rejection and an error stop, each with its own end |
| Sender.PassesExactly | src-tauri/src/file_transfer/sender.rs:124-160 | A block goes out exactly when the flag is unset, nothing heard stops and the connection takes it |
| Sender.FlagComesFirst | src-tauri/src/file_transfer/sender.rs:126-128 | A set flag ends the loop before all else, the connection only if nothing heard did |
| Sender.FirstHeardDecides | src-tauri/src/file_transfer/sender.rs:146-157 | Of what was heard the first arm that stops gives the reason |
| Sender.BlocksExactly | src-tauri/src/file_transfer/sender.rs:124-168 | The description of the loop below and its round-by-round form admit the same outcome, and only one |
| Sender.SendBlocks | src-tauri/src/file_transfer/sender.rs:120-168 | Each block belongs to a round that passes and has the length read; the blocks tile the source from the start offset; the loop ends at the end of the source, at an empty read, or for the first cause of the next round, and for nothing else |
| Sender.SendFileQuic | src-tauri/src/file_transfer/sender.rs:72-189 | For everything a send can meet its end and all it said, by the first cause; success means a positive verdict after the source went out from the accepted offset, capped by the size, to its end or an empty read, in rounds that all passed |
| Tcp.ReadHandshake | src-tauri/src/file_transfer/tcp_channel.rs:122-141 | Exactly the bytes before the first newline, which is consumed; none if the stream ends first |
| Tcp.ReadExactN | src-tauri/src/file_transfer/tcp_channel.rs:158-172 | Exactly the next n bytes for every read schedule, or nothing when the stream ends before |
| Tcp.ReceiveBody | src-tauri/src/file_transfer/receiver.rs:252-294 | For every read schedule received + remaining is the size, and the bytes read so far stand from the start of the residue; it is cancelled exactly when the flag is set in a round that is reached |
| Tcp.ReceiveTcp | src-tauri/src/file_transfer/receiver.rs:242-311 | Result and disk depend on the stream and the residue alone: success only with a matching 32-byte trailer; a flag set early enough for every block size cancels |
| Tcp.SendBlocks | src-tauri/src/file_transfer/sender.rs:278-298 | For every block size the loop puts out the source from the offset on, to its end, to an empty read, or, exactly when the flag is set in a round that is reached, to a cancel |
| Tcp.SendFileTcp | src-tauri/src/file_transfer/sender.rs:192-311 | Wire and report for every answer of the peer and every block size: the line alone without an accept or for an offset at the end, else the source up to where the loop got and the trailer |
| Tcp.UndisturbedSend | src-tauri/src/file_transfer/sender.rs:273-310 | Without a cancel or an empty read that is the whole rest of the source and the trailer |
| Tcp.HandshakeSplits | src-tauri/src/file_transfer/tcp_channel.rs:40-51 | Reading the handshake off the wire returns the line that was sent and leaves the rest |
| Tcp.FreshArrives | src-tauri/src/file_transfer/receiver.rs:242-311 | A fresh transfer of a non-empty file arrives whole |
| Tcp.ArrivesExactly | src-tauri/src/file_transfer/receiver.rs:252-275 | From a residue of whatever content, with what is sent for its length, the source arrives if and only if the residue is empty and the file is not |
| Tcp.ArrivesAtOnce | src-tauri/src/file_transfer/daemon_listener.rs:668-679 | The same for a whole attempt with its clean-up |
| Tcp.HealsExactly | src-tauri/src/file_transfer/daemon_listener.rs:795-817 | A stale residue heals if and only if it is shorter than the file: then every attempt after the first arrives, else none ever does |
| Tcp.FullResidueStuck | src-tauri/src/file_transfer/sender.rs:251-261 | Told the length of a complete residue, the sender reports success at once, the receiver fails on what was sent, and its clean-up leaves the disk as it was, so the next attempt is the same |
| Tcp.EarlyEndNeverFinal | src-tauri/src/file_transfer/receiver.rs:269-301 | If the stream ends before the trailer is complete, the final path is untouched |
| Ftp.Resolve | src-tauri/src/ftp/storage.rs:74-109 | The stack loop returns the root followed by the walked names, or fails |
| Ftp.FailsExactly | src-tauri/src/ftp/storage.rs:77-102 | It fails if and only if some component climbs above the root, is a root after names, or is a drive or share prefix |
| Ftp.PlainStays | src-tauri/src/ftp/storage.rs:79 | Plain names stand for themselves |
| Ftp.PlainLocates | src-tauri/src/ftp/storage.rs:104-108 | Plain names resolve to themselves below the root of the user |
| Ftp.RewritesAway | src-tauri/src/ftp/storage.rs:80-86 | Removing a dot, or a name followed by two dots, anywhere does not change the result |
| Ftp.NormalFormIsEnough | src-tauri/src/ftp/storage.rs:75-109 | Joining a path to a directory or to its normal form resolves to the same place |
| Ftp.FromDirectory | src-tauri/src/ftp/storage.rs:75-109 | A relative path goes on from the current directory; after a leading root, names start at the user's root |
| Ftp.PermittedIs | src-tauri/src/ftp/storage.rs:112-129 | Reading needs the download permission; each change a user who is not read-only and its own permission |
| Ftp.Storage.CheckWrite | src-tauri/src/ftp/storage.rs:112-129 | The permission decision, read-only first |
| Ftp.Storage.Put | src-tauri/src/ftp/storage.rs:211-244 | Reply and file system after an upload, fresh, resumed or broken off |
| Ftp.Storage.Del | src-tauri/src/ftp/storage.rs:246-254 | Reply and file system after a delete |
| Ftp.Storage.Mkd | src-tauri/src/ftp/storage.rs:256-264 | Reply and file system after making a directory |
| Ftp.Storage.Rmd | src-tauri/src/ftp/storage.rs:266-274 | Reply and file system after removing a directory |
| Ftp.Storage.Rename | src-tauri/src/ftp/storage.rs:276-294 | Reply and file system after a rename of a file or subtree |
| Ftp.Storage.Get | src-tauri/src/ftp/storage.rs:190-209 | Reply of a download; it changes nothing |
| Ftp.ChangesBelowRoot | src-tauri/src/ftp/storage.rs:211-294 | An entry changes only at or below the user's root, with the permission needed, never for a read-only user |
| Ftp.RunChangesBelowRoots | src-tauri/src/ftp/storage.rs:211-294 | The same over any run of requests by any users |
| Ftp.DeniedExactly | src-tauri/src/ftp/storage.rs:74-129 | Denied exactly for a missing permission or a path with a bad component |
| Ftp.SucceedsExactly | src-tauri/src/ftp/storage.rs:190-294 | A permitted request that resolves succeeds exactly when the entry, its parent or what lies below is of the right kind; otherwise the tree stays, but for a broken upload |
| Ftp.RenameBack | src-tauri/src/ftp/storage.rs:276-294 | Renaming to a free place and back restores the whole tree |
| Ftp.RenameToItself | src-tauri/src/ftp/storage.rs:285-287 | Renaming an entry to itself succeeds and changes nothing |
| Ftp.MadeAndRemoved | src-tauri/src/ftp/storage.rs:246-274 | Making and removing a directory, or uploading and deleting a file, restores the tree |
| Ftp.UploadContinues | src-tauri/src/ftp/storage.rs:222-236 | An upload continued where it broke off reads back as the whole |
| Ftp.PutThenGet | src-tauri/src/ftp/storage.rs:190-244 | What was written at any offset is read back from any offset, with the old file or zeros around it and nothing of it after a write from the start; no other entry changes |
| Ftp.RenamedAndBack | src-tauri/src/ftp/storage.rs:276-294 | Two requests, there and back, both succeed and restore the tree |
| Ftp.RenameReplacesFilesOnly | src-tauri/src/ftp/storage.rs:276-294 | A rename takes away no directory, and a file only by putting a file over it |
| Ftp.OperationKeepsTree | src-tauri/src/ftp/storage.rs:211-294 | No operation leaves an entry without the directory it lies in |
| Ftp.RunKeepsTree | src-tauri/src/ftp/storage.rs:211-294 | So over any run of requests the tree stays a tree |
| Session.SessionManager.EnterSharing | src-tauri/src/desktop_share/session.rs:352-375 | The stored connection and the sharing state, role and device kept |
| Session.SessionManager.Fail | src-tauri/src/desktop_share/session.rs:389-400 | Everything is cleared and the error is shown |
| Session.SessionManager.RequestConnect | src-tauri/src/desktop_share/session.rs:142-222 | Refusal while busy, else sharing or failure by outcome |
| Session.SessionManager.HandleIncoming | src-tauri/src/desktop_share/session.rs:226-282 | Refusal while busy, else the waiting connection and its request |
| Session.SessionManager.AcceptPending | src-tauri/src/desktop_share/session.rs:285-301 | The waiting connection is taken, and becomes the active one only if the answer went out |
| Session.SessionManager.RejectPending | src-tauri/src/desktop_share/session.rs:304-326 | The waiting connection goes, the active one is not touched |
| Session.SessionManager.Disconnect | src-tauri/src/desktop_share/session.rs:329-349 | Everything is cleared |
| Session.AlwaysConsistent | src-tauri/src/desktop_share/session.rs:142-401 | With calls run to completion: sharing holds exactly when a connection is stored; a waiting connection means host, waiting, its request stored; never both |
| Session.ReachableConsistent | src-tauri/src/desktop_share/session.rs:111-118 | That holds in every state the calls lead to from the start |
| Session.WholeSessions | src-tauri/src/desktop_share/session.rs:142-326 | What a request, an accepted and a rejected visit come to: role, device, grants, and the stale request an accept leaves |
| Session.StuckExactly | src-tauri/src/desktop_share/session.rs:290-297 | The state waiting for nothing is entered exactly by an accept whose answer could not be sent, and only a disconnect leaves it |
| Session.StuckUntilDisconnect | src-tauri/src/desktop_share/session.rs:290-297 | In it, any number of other calls change nothing |
| Session.SharingHasConnection | src-tauri/src/desktop_share/session.rs:142-401 | However requests, accepts, rejects and disconnects overlap at the network, sharing without a stored connection means that a disconnect is in flight |
| Session.SharingWithoutDrops | src-tauri/src/desktop_share/session.rs:142-326 | So without disconnects sharing means a stored connection in every state |
| Session.FreeDropsKeepLink | src-tauri/src/desktop_share/session.rs:142-349 | However calls overlap, while disconnects start only when no other call is in flight: sharing and a stored connection go together but for a disconnect on its way, and no waiting one is beside it |
| Session.DropKeepsLinkExactly | src-tauri/src/desktop_share/session.rs:329-349 | A disconnect keeps that link over every continuation if and only if it starts when no request, accept or reject is in flight |
| Session.HalvesMakeCalls | src-tauri/src/desktop_share/session.rs:142-349 | The halves of each call, meeting in flight, are the call run to completion |
| Session.OthersStayInFlight | src-tauri/src/desktop_share/session.rs:285-301 | An accept that comes through leaves every other call on its way as it was |
| Session.ConverseFails | src-tauri/src/desktop_share/session.rs:304-325 | One way it breaks in full: a connection stored without sharing, and a stored and a waiting one together |
| SessionLocks.BeginIsSafeExactly | src-tauri/src/desktop_share/session.rs:142-400 | Store by store, any number of calls at once: a call begins safely if and only if none of the other kind is on its way and, for a rejection, no connection is stored or one is still to be taken; every later store keeps the state safe |
| SessionLocks.KindsApartKeepLink | src-tauri/src/desktop_share/session.rs:142-400 | Over any run whose calls all begin so, sharing and a stored connection go together whenever all are through |
| SessionLocks.LinkKeptExactly | src-tauri/src/desktop_share/session.rs:142-400 | From whatever state: every way the calls on their way can be carried through ends with sharing and a stored connection together if and only if the state is safe |
| SessionLocks.StoresMakeCalls | src-tauri/src/desktop_share/session.rs:142-400 | Undisturbed, the stores of each call make up its step, a rejection in whatever phase |
| SessionLocks.RejectionStrays | src-tauri/src/desktop_share/session.rs:304-325 | A rejection while a connection is stored leaves it stored without sharing, with no other call on its way |
| SessionLocks.DisconnectBetweenStores | src-tauri/src/desktop_share/session.rs:359-374 | A disconnect between the two stores of entering leaves sharing without a connection |
| Traffic.TrafficStats.Accumulate | src-tauri/src/traffic.rs:71-76 | The day's record grows by both increments, each saturating |
| Traffic.TrafficStats.Prune | src-tauri/src/traffic.rs:79-83 | Keeps exactly the readable days at most 62 days old |
| Traffic.TrafficStats.Month | src-tauri/src/traffic.rs:100-111 | In any order of days the saturating loop gives the true sum of the month, capped |
| Traffic.TrafficStats.Total | src-tauri/src/traffic.rs:114-121 | The same over all days |
| Traffic.TodayMonthTotal | src-tauri/src/traffic.rs:86-121 | Today, month and total are ordered, for sent and received |
| Traffic.PruneKeepsDays | src-tauri/src/traffic.rs:79-97 | Pruning leaves today and yesterday alone |
| Traffic.PrunesByAge | src-tauri/src/traffic.rs:79-83 | A day stays if and only if it is at most 62 days back, and stays as it is |
| Traffic.PruneAndMonth | src-tauri/src/traffic.rs:79-111 | The month loses in pruning exactly what stands under keys that are no dates |
| Traffic.PruneKeepsMonth | src-tauri/src/traffic.rs:79-111 | With dates as keys pruning leaves the month alone |
| Traffic.AccumulateAdds | src-tauri/src/traffic.rs:71-76 | What is added to a day is added to the total |
| Traffic.Monitor | src-tauri/src/traffic.rs:143-210 | The monitor loop: wrapping 64-bit session totals and the days after any list of samples and dates |
| Traffic.SessionTotalWraps | src-tauri/src/traffic.rs:183-185 | A session total is the true one but for multiples of 2^64, and equal to it if and only if that fits |
| Traffic.Telescopes | src-tauri/src/traffic.rs:157-171 | Seen without gaps, a total is last minus first plus all the falls of the counter, and equals that difference exactly when it never went back |
| Traffic.OnlyRisesCount | src-tauri/src/traffic.rs:155-177 | A tick with a missing sample or falling counters adds nothing |
| Traffic.DaysMatchSession | src-tauri/src/traffic.rs:183-206 | Short of the cap, days and session grow by the same amount; only pruning takes from the days |
| Probe.ReadsBackExactly | src-tauri/src/file_transfer/network.rs:282-302 | A probe reply reads back exactly when the node id holds no colon; port 0 reads back as the default port |
| Probe.PortsAreOptional | src-tauri/src/file_transfer/network.rs:285-298 | Replies of older versions without ports: the default port, and none for TCP |
| Probe.RefusedExactly | src-tauri/src/file_transfer/network.rs:281-283 | A text is refused exactly when, trimmed, it does not begin with the tag |
| Probe.SpaceAround | src-tauri/src/file_transfer/network.rs:278-280 | White space around a reply does not matter, and nothing else is trimmed |

## Left out

- Transport, runtime and formats: sockets, QUIC and its connections, scheduling, JSON and binary encoding, SHA-256
  itself. Channels are lists, awaits are points between steps, hashes are functions.
- Windows media and capture calls beyond whether they fail, `target_size` and `scale_bgra` (floating point), the frame loop
  around the encoder.
- The user interface, tray, updater, clipboard, input injection, logging, the settings and daemon process handling.
- Transfer sessions do not overlap in `Transfer`: a new one begins when both ends of the last are over. A
  receiver of a dead connection that writes beside its successor appears in `LoopsKeepPrefix` only, without the checks,
  renames and deletions of either.
- Error texts: the source sorts errors by words in their messages; here each cause is a constructor.
- The step relation knows one final path. Which path that is, and what lies there, is the matter of `Names` and
  `Receiver`.
- File operations succeed unless the code itself branches on their failure, and nobody else writes to the directory
  between planning and finishing. Names hold no directory separators. The source file does not change while it is sent.
- Sizes and offsets are natural numbers; only the encoder's 32-bit size product and the 64-bit traffic counters are
  bounded. The encoder's product and the session's traffic totals wrap as in release builds.
- A chunk size of 0, which no caller passes.
- Progress reports, speed and remaining time, history records beyond their number in a paused send, lists of transfers
  and their ids.
- Finding a pending request from its popup: the source looks it up by another id than it was stored under.
- `sharing_since`, uptime and frame statistics of a session; the lists of files kept for display.
- FTP listing, metadata and logging; symbolic links; the operating system's own rules beyond those in `CanMove`, which
  appear as a refusal that changes nothing.
- Calendar arithmetic: `Traffic` asks only that keys read back as their date and that keys of one month share a prefix.
- Probe: the text is plain characters, and node ids are not decoded.
- DoSendChunk: in the step relation a read always returns something before the end of the file, because the source file
  does not change; `Sender` has the empty read that ends the loop early.
