# TFTP transfers: a verified model

The two TFTP programs of `ASSIGNMENT4` (the server `tftpd.c` with its client `tftpc.c`, and the second
client `tftp_client.cpp`) move a file over UDP in numbered blocks (RFC 1350). This project models their
transfer code and proves what it guarantees and exactly when.

Every transfer function is written twice:

- as the program is: a class with the program's buffers, counters and loops (`SenderProgram`,
  `ServerReceiverProgram`, `ClientReceiverProgram`, `GetFileProgram`, `PostFileProgram`). Its socket is a
  `Socket.UdpSocket`, which yields one outcome per wait: nothing, a datagram from the peer, or one from
  another host;
- as a machine that moves once per outcome (`SenderMachine`, `ReceiverMachines`, `GetFile`, `PostFile`).

The methods are proved to end on every inbox and to be the machines on exactly the outcomes that inbox
yields: same result, same file, same datagrams in the same order. The machines are then composed with
networks.

The results, hardest first:

- **Upload at ackfreq 1, channels that lose and repeat** (`UploadFifo`): for files of any length, with
  16-bit numbers that wrap as often as they like, the receiver's file is always the first r blocks, r being
  the sender's true block index or one less. The ring invariant carries it: all the way round from sender
  over data channel and receiver to ACK channel, only two consecutive true indices occur.
- **Upload by window, on the same channels** (`UploadWindow`, `WideWindow`, `CutWindow`): exactly which uploads
  are honest. w = 1 and w = 2 always are. From w = 3 on an upload is unless three or more blocks are outstanding at
  its last wait; then one loss lets the server report success with a shortened file.
- **Upload at ackfreq 1, reordering as well** (`UploadReorder`): the sides keep together exactly up to 65535
  blocks (an old ACK 0 ends that), the file is right exactly up to 65536 (an old block ends that).
- **Download at ackfreq 1** (`Download`): the client does not look at block numbers, and sends its ACKs to the
  port its first wait gives it, whatever that wait brought. Each block is taken once, on every run, exactly if the
  network never loses an ACK, repeats nothing, lets the sender time out only when nothing is under way, and that
  first wait cannot give another port than the server's (a few very short downloads excepted, which are named).
  One datagram is the token.
- **Every window, no loss** (`Lossless`, `Disagreement`): both pairs, ackfreq 1 to 16 set apart on the two sides,
  files of any length for a sender's window of 1 or 2. The two sides compute the ACK points by different formulas.
  Exactly if the windows are equal or the file has too few blocks to tell, and the sides agree on which block is
  the last, every ACK comes on the first try, every block is sent once, and the transfer succeeds.
- **Where datagrams go** (`UploadPort`, `Download`): which port tftpc learns, told from what it heard. An upload
  that has learnt a wrong one never delivers a block; a download that has takes block 1 again and again.
- **The slot buffer** (`SlotBuffer`): what it holds on every run, exactly when a resend repeats the original
  datagrams, and which outstanding blocks a resend covers.
- **Whatever arrives** (`SenderConservation`, `ServerConservation`, `ClientConservation`, `GetFileConservation`,
  `PostFileConservation`): every run of the five functions, at every window, told from the bytes of what arrived
  alone: which packet is taken for which block or ACK, the tries left, when the program gives up or succeeds, the
  file, and every datagram sent. These statements use neither the machines' tests nor the programs' codecs and
  constants (`Wire`).
- **The second client** (`GetFile`, `PostFile` and their conservation modules): also exactly when it refuses its own
  server for good, exactly which files come out right, and the size limit of `post_file`.
- **Budgets and termination** (`Budget`, `UploadBudget`), **end-of-file agreement** (`Adaptation`), and the
  codecs (`Chunking`, `Packets`, `Request`).

A file is given to the compositions as its list of blocks. `Chunking.BlocksPartition` and
`Chunking.BlocksOfFlatten` show that the lists satisfying `Chunked` are exactly those files are cut into.
`cur` and `accepted` are true (unbounded) block indices; `count` is always such an index modulo 65536.

Check everything with `dafny verify dfyconfig.toml --resource-limit 2000000 --verification-time-limit 0`.

## Where the code is not what its comments say

- A comment on `ack_packet` (tftpc.c:276) says only 255 blocks can be numbered. All 65536 numbers work:
  `Packets.AckRoundTrip`.
- "Resend the data packet" (tftpd.c:753, tftpc.c:531-541): the slots are all sent with the length of the last
  packet, and after an error reply with the length of that reply. `SlotBuffer.ResendExactIff` says when a
  resend is a resend.
- The client awaits every w-th block but fills its slots like the server (tftpc.c:433, 454): for w above 1 a
  resend of the client does not reach back to the first outstanding block. `SlotBuffer.ResendCoversIff`.
- tftpc.c:344 loops `RETRIES - 2` times, which is once, and goes on to send data whether or not ACK 0 came.
- tftpd.c:459 learns the chunk size from the first packet of the peer even if that packet is then rejected.
- tftpc means to learn its server's port from the first answer. But it takes the port before it looks at the
  address, and after a silent wait from an address structure nobody has written (tftpc.c:355-356, 629-632): a
  stranger's datagram, or silence, sends everything after it elsewhere. `UploadPort.AstrayForGood`,
  `Download.StrangerFirstBreaks`.
- The second client learns its server's port (TID) once and means to refuse other ports
  (tftp_client.cpp:202-205, 251). But asking again for the file sends to port 69 and forgets the learnt port
  in all but the comparison (221, 407): from then on it is the server that is refused.
  `GetFileConservation.TakenIff`, `PostFileConservation.WriteAckTakenIff`.
- The retransmission loop of `post_file` (tftp_client.cpp:587) tests variables it does not change: the first
  failed wait for the ACK of a block sends that block for ever.

## Model

| member | source | states |
|---|---|---|
| UploadFifo.RingHolds | ASSIGNMENT4/tftp-1.0/tftpc.c:420-562 | on every history of an upload at ackfreq 1 over order-keeping channels that lose and repeat, sender, data channel, receiver and ACK channel hold only two consecutive true block indices, older ahead of newer |
| UploadFifo.SenderKeepsRing | ASSIGNMENT4/tftp-1.0/tftpc.c:469-487 | a timeout, or a datagram of another host, at the sender keeps the ring |
| UploadFifo.AckKeepsRing | ASSIGNMENT4/tftp-1.0/tftpc.c:503-541 | an arriving ACK, current or stale, keeps the ring: 16 bits tell the two indices apart |
| UploadFifo.ReceiverKeepsRing | ASSIGNMENT4/tftp-1.0/tftpd.c:397-423 | a timeout, or a datagram of another host, at the receiver keeps the ring |
| UploadFifo.DataKeepsRing | ASSIGNMENT4/tftp-1.0/tftpd.c:442-497 | an arriving DATA packet, the next block or an old one, keeps the ring |
| UploadFifo.ChannelsKeepRing | ASSIGNMENT4/tftp-1.0/tftpd.c:380-499 | losing or repeating any datagram under way keeps the ring |
| UploadFifo.UploadSafe | ASSIGNMENT4/tftp-1.0/tftpd.c:339-511 | for files of any length the receiver's file is the first r blocks, r the sender's true block index or one less |
| UploadFifo.SenderSuccessMeansDelivered | ASSIGNMENT4/tftp-1.0/tftpc.c:553-566 | a sender that ends with success left the whole file with the receiver |
| UploadFifo.ReceiverSuccessMeansComplete | ASSIGNMENT4/tftp-1.0/tftpd.c:500-525 | a receiver that reaches `done` has the whole file, even if its last ACK is lost and the sender aborts, if it goes by the sender's chunk size or one chunk holds the file |
| UploadFifo.ReceiverSuccessMeansCompleteIff | ASSIGNMENT4/tftp-1.0/tftpd.c:369-376 | that every `done` on every history is with the whole file holds exactly then |
| UploadFifo.FirstBlockEnds | ASSIGNMENT4/tftp-1.0/tftpd.c:369-376 | where the receiver goes by another chunk size, a history in which it ends with the first of several blocks |
| UploadFifo.SidesAreRuns | ASSIGNMENT4/tftp-1.0/tftpc.c:317-567 | in every history, at every window, each side is its machine's run on exactly what that history let it hear, and that run's datagrams are all it sent |
| UploadPort.RunPort | ASSIGNMENT4/tftp-1.0/tftpc.c:344-380 | on every run of the client's sender the port all DATA goes to is told from the waits of the handshake: strangers' datagrams go on setting it, and the first outcome that is no stranger's, silence included, ends the handshake with what is then in the address structure |
| UploadPort.FirstAckRejected | ASSIGNMENT4/tftp-1.0/tftpc.c:503-541 | in its first burst the sender takes ACK 0 for no block's ACK, and stays there |
| UploadPort.NothingYet | ASSIGNMENT4/tftp-1.0/tftpc.c:355-422 | at every window: before the handshake has ended, and ever after if it ended with another port than the server's, nothing has reached the server, which has sent nothing but ACK 0 |
| UploadPort.AstrayForGood | ASSIGNMENT4/tftp-1.0/tftpc.c:355-356 | at every window: once the handshake has ended with another port, no history brings the server a single block, and neither side ever reports success |
| UploadReorder.InvHolds | ASSIGNMENT4/tftp-1.0/tftpd.c:463-486 | below 65536 blocks, or where the receiver ends with the first block, on a network that loses, repeats and reorders: sides at most one block apart, every packet about is of a block already sent, every ACK of a block already written |
| UploadReorder.AckMeansWritten | ASSIGNMENT4/tftp-1.0/tftpd.c:348-364 | an ACK k in the network means that block k is in the receiver's file, and the file is a block prefix |
| UploadReorder.FileInvHolds | ASSIGNMENT4/tftp-1.0/tftpc.c:510-529 | with exactly 65536 blocks the sender may end too early on an old ACK 0, but the receiver still takes every block once and in order |
| UploadReorder.ReceiverSuccessMeansComplete | ASSIGNMENT4/tftp-1.0/tftpd.c:369-376 | a receiver that reaches `done` has the whole file, whatever becomes of the sender: for files of one chunk, and up to 65536 blocks if it goes by the sender's chunk size |
| UploadReorder.ReceiverSuccessMeansCompleteIff | ASSIGNMENT4/tftp-1.0/tftpd.c:463-525 | that every `done` on every run is with the whole file holds exactly then |
| UploadReorder.StaleDataTaken | ASSIGNMENT4/tftp-1.0/tftpd.c:463 | the receiver takes any packet that bears the 16-bit number it waits for |
| UploadReorder.StaleDataBreaks | ASSIGNMENT4/tftp-1.0/tftpd.c:463 | beyond 65536 blocks, a run in which an old block is written in place of the last, and the file gets longer than the source |
| UploadReorder.WrongSuccess | ASSIGNMENT4/tftp-1.0/tftpd.c:463-525 | in all other cases, a run in which the receiver reaches `done` with a file that is not the source's |
| UploadReorder.ReorderFileSafeIff | ASSIGNMENT4/tftp-1.0/tftpd.c:463-511 | on every run the receiver's file is made of the first blocks of the source, if and only if there are at most 65536 blocks or the receiver ends with the first |
| UploadReorder.Climb | ASSIGNMENT4/tftp-1.0/tftpc.c:510-529 | any block can be reached with the first ACK still in the network |
| UploadReorder.StaleAckBreaks | ASSIGNMENT4/tftp-1.0/tftpc.c:510-529 | for a file of 65536 blocks or more, a run in which an old ACK 0 passes for that of block 65536 |
| UploadReorder.ReorderSafeIff | ASSIGNMENT4/tftp-1.0/tftpc.c:420-562 | on every run the two sides stay within one block and a successful sender left every block, if and only if there are at most 65535 blocks or the receiver goes by another chunk size (and so ends with the first block) |
| Download.TokenHolds | ASSIGNMENT4/tftp-1.0/tftpd.c:616-790 | without the four faults, and if the client cannot be given another port, one datagram carries the turn until the receiver is done, its ACKs go to the server, and the sides are at most one block apart |
| Download.DownloadSafe | ASSIGNMENT4/tftp-1.0/tftpc.c:598-727 | on such a network at most one datagram is under way before the last block, and each block is taken once and in order though no number is looked at; sender success means the file is complete |
| Download.ReceiverSuccessMeansComplete | ASSIGNMENT4/tftp-1.0/tftpc.c:602-618 | on such a network a client that reaches `done` has the whole file, if it goes by the sender's chunk size or one chunk holds the file |
| Download.ReceiverSuccessMeansCompleteIff | ASSIGNMENT4/tftp-1.0/tftpc.c:598-727 | that every `done` on every history of such a network is with the whole file holds exactly then |
| Download.NextBlockTaken | ASSIGNMENT4/tftp-1.0/tftpc.c:692-717 | the next block is written and acknowledged, the last one twice |
| Download.AnyBlockTaken | ASSIGNMENT4/tftp-1.0/tftpc.c:679-717 | the client takes any block for the one it waits for, acknowledges it by its own count, and goes on if it looks full |
| Download.Reach | ASSIGNMENT4/tftp-1.0/tftpd.c:616-790 | without trouble the download gets to any block the client waits for |
| Download.RepeatedDataBreaks | ASSIGNMENT4/tftp-1.0/tftpc.c:679 | where DATA can be repeated, the last block the client goes on after is written twice |
| Download.EarlyTimeoutBreaks | ASSIGNMENT4/tftp-1.0/tftpd.c:751-762 | so it is where the sender can time out with its packet still under way |
| Download.LostAckBreaks | ASSIGNMENT4/tftp-1.0/tftpd.c:751-762 | so it is where an ACK can be lost and the sender sends again |
| Download.RepeatedAckBreaks | ASSIGNMENT4/tftp-1.0/tftpd.c:723-762 | so it is where an ACK can be repeated, if the client goes on after two blocks or more |
| Download.DoubledShows | ASSIGNMENT4/tftp-1.0/tftpc.c:727 | a file with that block twice is longer than the source |
| Download.EndsAtOnceHolds | ASSIGNMENT4/tftp-1.0/tftpc.c:602-618 | a client that ends with the first block has nothing or that block, whatever the faults |
| Download.OneMoreHolds | ASSIGNMENT4/tftp-1.0/tftpc.c:598-727 | a client that goes on after just one block, and cannot be given another port, takes no block twice if repeated ACKs are the only fault |
| Download.PortStaysGood | ASSIGNMENT4/tftp-1.0/tftpc.c:629-632 | unless the client can be misled, no wait gives it another port than the server's |
| Download.MisledAtOnce | ASSIGNMENT4/tftp-1.0/tftpc.c:629-632 | where it can be, one happening before the first block gives it one |
| Download.TakenUnheard | ASSIGNMENT4/tftp-1.0/tftpc.c:629-717 | a misled client takes block 1, once more, and its ACK does not reach the server |
| Download.RepeatedUnheard | ASSIGNMENT4/tftp-1.0/tftpd.c:751-762 | so nothing is under way, the sender may time out, and sends block 1 again |
| Download.StrangerFirstBreaks | ASSIGNMENT4/tftp-1.0/tftpc.c:629-651 | the failing input: a stranger's datagram, DATA 1, a timeout with nothing under way, DATA 1 again: the block is written twice while the server is still at it, though the network has lost and repeated nothing |
| Download.MisledBreaks | ASSIGNMENT4/tftp-1.0/tftpc.c:629-632 | wherever the client can be misled and goes on after the first block, some history takes more blocks than were sent |
| Download.DownloadSafeIff | ASSIGNMENT4/tftp-1.0/tftpc.c:598-727 | for every file, chunk sizes and stale port: every history takes each block once and in order, and none before it is sent, if and only if the network has none of the four faults and the client's first wait cannot give it another port than the server's (neither a stranger's datagram nor silence on a stale port); or the client ends with the first block; or it goes on after just one, keeps the right port, and repeated ACKs are the only fault |
| Lossless.UploadTakes | ASSIGNMENT4/tftp-1.0/tftpd.c:348 | for every pair of windows, the server's receiver writes the next block and answers it with an ACK exactly where its own schedule says |
| Lossless.DownloadTakes | ASSIGNMENT4/tftp-1.0/tftpc.c:698-716 | the same for the client's receiver, which sends two ACKs for some last blocks and learns the server's port |
| Lossless.InOrderHolds | ASSIGNMENT4/tftp-1.0/tftpd.c:650-651 | where the ACK schedules and the ends agree: without loss or timeout the data under way are the blocks between the two sides, all of one window, and the awaited ACK comes once the receiver has them all |
| Lossless.FirstTry | ASSIGNMENT4/tftp-1.0/tftpc.c:454 | there every ACK wait is met on its first try and every block so far was sent once, in order |
| Lossless.Progress | ASSIGNMENT4/tftp-1.0/tftpd.c:650-785 | every arrival brings the end nearer: no lossless run goes on for ever |
| Lossless.LosslessCompletes | ASSIGNMENT4/tftp-1.0/tftpc.c:559-566 | there, when nothing is under way any more, both sides have succeeded with identical files |
| Lossless.RunsOn | ASSIGNMENT4/tftp-1.0/tftpd.c:786-796 | there every lossless run extends to one that ends in success with identical files |
| Disagreement.BeforeOrEnded | ASSIGNMENT4/tftp-1.0/tftpd.c:457-462 | where the receiver goes by another chunk size, a lossless run never gets beyond the first block, and no ACK of a second block is ever sent |
| Disagreement.WaitingHolds | ASSIGNMENT4/tftp-1.0/tftpc.c:672-678 | where the only block looks full to the receiver, a lossless run never ends for it |
| Disagreement.LosslessSucceedsIff | ASSIGNMENT4/tftp-1.0/tftpd.c:650-790 | with schedules that agree: from any point of any lossless run the transfer can go on into success (both sides, identical files) if and only if the two sides agree on the last block |
| Disagreement.SchedulesAgreeIff | ASSIGNMENT4/tftp-1.0/tftpc.c:454 | the two sides' ACK schedules agree on every block if and only if the windows are equal, or the file has at most as many blocks as the smaller window (one more for a download) |
| Disagreement.ToBlock | ASSIGNMENT4/tftp-1.0/tftpd.c:650-785 | a lossless transfer gets to the first block on which the schedules differ |
| Disagreement.NotSent | ASSIGNMENT4/tftp-1.0/tftpd.c:650-651 | if the sender waits there and the receiver is silent, nothing is under way and nothing has succeeded |
| Disagreement.TooSoon | ASSIGNMENT4/tftp-1.0/tftpd.c:348 | if the receiver acknowledges there, its ACK comes before the one the sender waits for |
| Disagreement.SoonFails | ASSIGNMENT4/tftp-1.0/tftpd.c:723-762 | and fails the try |
| Disagreement.RunsOut | ASSIGNMENT4/tftp-1.0/tftpd.c:650-785 | where the sides do not agree on the last block, every lossless run that goes on meets a failed try or comes to a standstill without success |
| Disagreement.SmoothIff | ASSIGNMENT4/tftp-1.0/tftpc.c:454 | for every pair of windows: every lossless history meets every ACK wait on its first try and comes to rest only in success, if and only if the sides agree on the last block and the windows are equal or the file has too few blocks to tell |
| UploadWindow.Ring2Holds | ASSIGNMENT4/tftp-1.0/tftpc.c:420-562 | at w = 2 over channels that lose and repeat: everything under way is a packet sent since the last ACK wait, or bears the number of the block waited for then; the server is between that block and the current one; an ACK of the current block means the server has it |
| UploadWindow.ResendGood | ASSIGNMENT4/tftp-1.0/tftpc.c:531-541 | at w = 2 a resend is the current packet alone, or that packet behind something with the number of the block before |
| UploadWindow.BlockTaken | ASSIGNMENT4/tftp-1.0/tftpd.c:341-364 | at w = 2 the server takes the next block, acknowledges even ones and the last, and zeroes its buffer after the others |
| WideWindow.WideHoldsOnRuns | ASSIGNMENT4/tftp-1.0/tftpc.c:420-562 | at w from 3 on, where no harmful cut can be made, over channels that lose and repeat: everything under way to the server is a packet of a block sent so far, whole unless the server is past that block; copies of block 1 are in front until it is taken; every ACK is of a block the server has |
| WideWindow.WideResend | ASSIGNMENT4/tftp-1.0/tftpc.c:531-541 | there a resend holds only such packets, and never block 1 again |
| WideWindow.CutHarmless | ASSIGNMENT4/tftp-1.0/tftpc.c:428-433 | the blocks a resend at the last wait can cut are ones already acknowledged, if at most two were outstanding |
| WideWindow.WideTaken | ASSIGNMENT4/tftp-1.0/tftpd.c:341-376 | there the server takes the next block whole |
| CutWindow.SameRun | ASSIGNMENT4/tftp-1.0/tftpc.c:420-562 | without loss this composition is the one of `Lossless` |
| CutWindow.ToLastWindow | ASSIGNMENT4/tftp-1.0/tftpc.c:420-562 | the upload gets to its last window without trouble |
| CutWindow.CutSent | ASSIGNMENT4/tftp-1.0/tftpc.c:531-541 | with three or more blocks in the last window, a resend at the last wait begins with its second block, cut to the length of the last one |
| CutWindow.CutTaken | ASSIGNMENT4/tftp-1.0/tftpd.c:369-376 | a server that waits for that block takes it for the last one |
| CutWindow.CutTakenForLast | ASSIGNMENT4/tftp-1.0/tftpc.c:531-541 | so for every such file there is a run: the last window but its first block is lost, the sender times out, and the server reports success with a file that ends inside that block |
| CutWindow.ShortenedShows | ASSIGNMENT4/tftp-1.0/tftpd.c:369-376 | that file is shorter than the source |
| CutWindow.SafeIsHonest | ASSIGNMENT4/tftp-1.0/tftpd.c:339-525 | in all other cases, on every history: the file is made of the first blocks, a successful sender left the whole file, and so did a successful server that goes by the sender's chunk size |
| CutWindow.LossyHonestIff | ASSIGNMENT4/tftp-1.0/tftpc.c:420-562 | for each upload of B blocks at window w: every history over channels that lose and repeat is honest in this sense, if and only if w is at most 2, or (B - 1) mod w is below 2, or the server goes by another chunk size than the sender |
| SlotBuffer.SlotsHoldOnRuns | ASSIGNMENT4/tftp-1.0/tftpd.c:625-640 | on every run, whatever arrives, slots 0..bcount hold exactly the packets of blocks count-bcount..count, and bcount is below ackfreq |
| SlotBuffer.ResendExactIff | ASSIGNMENT4/tftp-1.0/tftpd.c:751-762 | at every ACK wait of every run a resend repeats the original datagrams if and only if no error reply has changed `len` and the current block is full or alone in the buffer |
| SlotBuffer.ServerPrevWait | ASSIGNMENT4/tftp-1.0/tftpd.c:650-651 | the server awaits the ACKs of block 1 and then of every w-th block |
| SlotBuffer.ServerOutstanding | ASSIGNMENT4/tftp-1.0/tftpd.c:625-631 | the server's slots 0..bcount are exactly the blocks sent since the last ACK wait, but for w = 2 and the block counted 1 after a wrap, whose slot is that of the block before it |
| SlotBuffer.ClientOutstanding | ASSIGNMENT4/tftp-1.0/tftpc.c:454 | the client awaits the ACK of every w-th block |
| SlotBuffer.ResendCoversIff | ASSIGNMENT4/tftp-1.0/tftpc.c:428-454 | a resend of the server starts exactly at the first outstanding block if and only if it is not that one block; the client's reaches back that far if and only if the block before the current one ends a window, at its regular waits only for w = 1 |
| Budget.BurstTo | ASSIGNMENT4/tftp-1.0/tftpd.c:616-651 | between two waits the sender sends the blocks from one to the other, each once, in order |
| Budget.RunWithin | ASSIGNMENT4/tftp-1.0/tftpd.c:650-785 | on every run each block up to the last wait was sent at most three times, the outstanding ones once, and the buffer again for each failed try |
| Budget.DataBudget | ASSIGNMENT4/tftp-1.0/tftpd.c:650-785 | for B blocks, resends included, at most 3B + w DATA datagrams on the server and 3B + 3w - 2 on the client (3B + 1 for w = 1), on every run |
| Budget.SenderTerminates | ASSIGNMENT4/tftp-1.0/tftpc.c:458-558 | a run has ended after three tries for each block (and one for the client's handshake), however many strangers' datagrams come between |
| UploadBudget.ReceiverAcks | ASSIGNMENT4/tftp-1.0/tftpd.c:380-507 | on every run the server's receiver sends at most one ACK at the start, three for each block, and those of the current tries |
| UploadBudget.UploadWithinBudget | ASSIGNMENT4/tftp-1.0/tftpd.c:380-507 | an upload of B blocks takes at most 3B + 1 DATA datagrams and, chunk sizes agreeing, 3B + 1 ACKs |
| UploadBudget.PlayersAreRuns | ASSIGNMENT4/tftp-1.0/tftpc.c:317-567 | over a network that reorders, too, each side is its machine's run on exactly what the turns let it hear, and the ACKs about are those that run sent |
| UploadBudget.ReorderWithinBudget | ASSIGNMENT4/tftp-1.0/tftpd.c:380-507 | there an upload of B blocks takes at most 3B + 1 DATA datagrams and, up to 65536 blocks and with chunk sizes that agree, 3B + 1 ACKs |
| StopAndWait.SenderMove | ASSIGNMENT4/tftp-1.0/tftpc.c:454-562 | at ackfreq 1: silence or another block's ACK repeats the current packet exactly or aborts, the awaited ACK brings the next block or success, a stranger nothing but, in the handshake, its port |
| StopAndWait.ReceiverMove | ASSIGNMENT4/tftp-1.0/tftpd.c:380-511 | at ackfreq 1: the next block is appended and acknowledged; silence or another block repeats the last ACK or aborts; a stranger nothing |
| StopAndWait.ReceiverStarts | ASSIGNMENT4/tftp-1.0/tftpd.c:337-364 | the receiver starts with an empty file and ACK 0 |
| StopAndWait.AckInjective | ASSIGNMENT4/tftp-1.0/tftpc.c:277-281 | below 65536 an ACK datagram tells its block |
| Adaptation.AgreementIff | ASSIGNMENT4/tftp-1.0/tftpd.c:369 | the receiver's end-of-file test says what the sender's says on every block, if and only if its chunk size is the sender's (file of a full chunk or more), or differs from the file size (a shorter file) |
| Adaptation.ServerAdaptsIff | ASSIGNMENT4/tftp-1.0/tftpd.c:457-462 | exactly when the server's receiver agrees, for every file, sender's chunk size and own starting size |
| Adaptation.ClientAdaptsIff | ASSIGNMENT4/tftp-1.0/tftpc.c:672-678 | exactly when the client's receiver agrees, for every file, sender's chunk size and own starting size |
| Adaptation.DefaultAdaptsIff | ASSIGNMENT4/tftp-1.0/tftpc.c:672-678 | a sender at chunk size D in 512..1024 and a receiver at the default agree if and only if the file is below 512 bytes or at least D |
| ServerConservation.FileIsTaken | ASSIGNMENT4/tftp-1.0/tftpd.c:380-511 | whatever arrives, at every window, told from the bytes of the events alone: the file is the payloads of exactly the packets of the peer with opcode 3 and the next 16-bit number, though packets are copied into `filebuf` before they are checked; the receiver is done exactly after one that is not full, and gives up exactly at the third try in a row (silence, or any other packet of the peer) that brings none |
| ServerConservation.AnswersAreLastAcks | ASSIGNMENT4/tftp-1.0/tftpd.c:341-497 | whatever arrives, at every window, every datagram sent, byte by byte: ACK 0, the ACK of each block whose number the window divides and of the last, and for each failed try the last such ACK or, where the last block got none, zeros; behind an error reply for an opcode of 6 to 127, which stretches the repeats to 22 bytes until the next ACK; nothing for a stranger |
| ClientConservation.FileIsTaken | ASSIGNMENT4/tftp-1.0/tftpc.c:619-727 | the same for the client's receiver: the file is the payloads of exactly the peer's packets with opcode 3, whatever their numbers; any other packet, an error packet with text among them, leaves file and count alone and never ends the download well; the third try in a row that brings no block gives up |
| ClientConservation.AnswersAreAcks | ASSIGNMENT4/tftp-1.0/tftpc.c:602-717 | whatever arrives, at every window, every datagram sent, byte by byte, and the port they go to: for the k-th block ACK k if it is the first of a window by number, and (once more) if it is the last; an error reply for an opcode of 6 to 127; nothing on silence |
| SenderConservation.TriesTold | ASSIGNMENT4/tftp-1.0/tftpd.c:654-785 | on every run of either sender, told from the bytes of the events alone: a wait for a block ends well only with a packet of the peer with opcode 4 and the block's 16-bit number; `j` is the number of other outcomes since the wait began, strangers' datagrams not counted; the transfer aborts exactly when it reaches 3, and succeeds exactly when the ACK of the last block has come |
| SenderConservation.SentTold | ASSIGNMENT4/tftp-1.0/tftpc.c:420-562 | on every run, at every window, every datagram sent: the end of a wait brings the packets up to the next wait (the first block and every w-th after it on the server, every w-th on the client, the last on both); a failed try brings the stored packets again, all cut to the length of the last packet or of the latest error reply (and then with what lies behind a shorter one in its slot), behind an error reply for an opcode of 6 to 127 |
| SenderConservation.BurstNext | ASSIGNMENT4/tftp-1.0/tftpd.c:650-651 | the sending loop comes to its next wait there, counted in true block indices, though it looks at 16-bit numbers only |
| SlotBytes.RunStores | ASSIGNMENT4/tftp-1.0/tftpd.c:633-637 | on every run of either sender, whatever arrives: each byte of each slot is that of the last packet stored there that reaches so far, or the NUL that `sprintf` leaves behind an empty block, or what was there at the start |
| SenderConservation.ResendTold | ASSIGNMENT4/tftp-1.0/tftpd.c:751-762 | what a resend sends, packet by packet, in terms of the blocks of the file |
| SenderMachine.Step | ASSIGNMENT4/tftp-1.0/tftpd.c:654-787 | every move keeps the buffer's shape, `len` between 4 and 1028, fewer than three failed tries while waiting, waits only where the schedule has them, and success only after the last block; the port changes in the client's handshake only, with every wait |
| SenderMachine.FillSlot | ASSIGNMENT4/tftp-1.0/tftpd.c:633-637 | the filled slot begins with the DATA packet of that number and block |
| SenderMachine.SendBlock | ASSIGNMENT4/tftp-1.0/tftpc.c:422-448 | what goes out is the packet of the next true block, numbered modulo 65536 |
| SenderProgram.FileSender.Tsend | ASSIGNMENT4/tftp-1.0/tftpd.c:615-796 | `tsend` ends on every inbox; it has drawn the first outcomes that inbox yields and no others, and its outcome, buffer and datagrams are the machine's on those; it waits for nothing after its end |
| SenderProgram.FileSender.AwaitWriteAck | ASSIGNMENT4/tftp-1.0/tftpc.c:344-417 | the client's wait for ACK 0 ends after one try, whatever came, with the first burst still to send |
| SenderProgram.FileSender.TryForWriteAck | ASSIGNMENT4/tftp-1.0/tftpc.c:344-417 | one pass of that wait: only a stranger leaves it waiting; the port for all that follows is taken from `ack`, filled in or not |
| SenderProgram.FileSender.HearWriteAck | ASSIGNMENT4/tftp-1.0/tftpc.c:344-394 | how the next event of the inbox is taken, where the port comes from, and that the machine has then made the move the program has still to make |
| SenderProgram.FileSender.LearnPort | ASSIGNMENT4/tftp-1.0/tftpc.c:355-356 | the port is that of the last datagram received, or what the address structure held |
| SenderProgram.FileSender.EndHandshake | ASSIGNMENT4/tftp-1.0/tftpc.c:394-422 | after that try, ACK 0 or not, the program is at the head of the sending loop; a bad opcode has been answered |
| SenderProgram.FileSender.SendBlocks | ASSIGNMENT4/tftp-1.0/tftpd.c:616-790 | the sending loop ends in the state the machine ends in |
| SenderProgram.FileSender.SendAndAwait | ASSIGNMENT4/tftp-1.0/tftpd.c:616-787 | one pass of the sending loop: abort, success, or the next loop head, in step with the machine |
| SenderProgram.FileSender.Fread | ASSIGNMENT4/tftp-1.0/tftpd.c:619 | `fread` takes up to `datasize` bytes from where it stopped |
| SenderProgram.FileSender.ReadBlock | ASSIGNMENT4/tftp-1.0/tftpd.c:619-625 | `filebuf` holds the next block of the file, and the count goes up modulo 65536 |
| SenderProgram.FileSender.FillRow | ASSIGNMENT4/tftp-1.0/tftpd.c:633-637 | fills the slot for this block and leaves the other slots alone |
| SenderProgram.FileSender.StoreAndSend | ASSIGNMENT4/tftp-1.0/tftpd.c:633-647 | sends the DATA packet of this count and block from its slot |
| SenderProgram.FileSender.SendBlock | ASSIGNMENT4/tftp-1.0/tftpd.c:619-647 | sends the packet of the next true block, in step with the machine |
| SenderProgram.FileSender.AwaitAck | ASSIGNMENT4/tftp-1.0/tftpd.c:654-766 | the ACK wait ends with the machine's abort, success or next burst |
| SenderProgram.FileSender.TryForAck | ASSIGNMENT4/tftp-1.0/tftpc.c:458-544 | one try: a stranger's datagram costs none, anything but the awaited ACK costs one |
| SenderProgram.FileSender.Receive | ASSIGNMENT4/tftp-1.0/tftpd.c:661-749 | the received bytes are judged by opcode and decoded 16-bit number |
| SenderProgram.FileSender.Refuse | ASSIGNMENT4/tftp-1.0/tftpd.c:730-740 | the reply to a bad opcode leaves its own length in `len` |
| SenderProgram.FileSender.Retry | ASSIGNMENT4/tftp-1.0/tftpd.c:730-766 | the rest of a failed try sends what the machine sends and counts the try |
| SenderProgram.FileSender.Resend | ASSIGNMENT4/tftp-1.0/tftpd.c:751-762 | sends slots 0..bcount in order, each cut to the current `len` |
| SenderProgram.FileSender.constructor | ASSIGNMENT4/tftp-1.0/tftpc.c:318-342 | counters at 0, stale packet buffer and address structure, file unread |
| ReceiverMachines.ServerLoopHead | ASSIGNMENT4/tftp-1.0/tftpd.c:341-380 | the head of the loop changes neither file nor block count and resets the tries |
| ReceiverMachines.ServerStep | ASSIGNMENT4/tftp-1.0/tftpd.c:380-511 | every move keeps the size of `ackbuf`, `len` between 4 and 22, and fewer than three failed tries while receiving |
| ReceiverMachines.ClientStep | ASSIGNMENT4/tftp-1.0/tftpc.c:620-727 | every move keeps fewer than three failed tries while receiving; the port changes only while none is known |
| ServerReceiverProgram.FileReceiver.Tget | ASSIGNMENT4/tftp-1.0/tftpd.c:337-525 | the server's `tget` ends on every inbox; its outcome, file, ACK buffer and datagrams are the machine's on the outcomes drawn from it; it waits for nothing after its end |
| ServerReceiverProgram.FileReceiver.ReceiveBlocks | ASSIGNMENT4/tftp-1.0/tftpd.c:339-511 | the loop ends in the state the machine ends in on what was drawn from the inbox |
| ServerReceiverProgram.FileReceiver.ReceiveBlock | ASSIGNMENT4/tftp-1.0/tftpd.c:341-511 | one pass of the loop: done, aborted, or a block written, in step with the machine |
| ServerReceiverProgram.FileReceiver.SendAck | ASSIGNMENT4/tftp-1.0/tftpd.c:350-358 | the ACK of `count` is printed over the zeroed buffer and sent |
| ServerReceiverProgram.FileReceiver.ClearAck | ASSIGNMENT4/tftp-1.0/tftpd.c:343 | `ackbuf` is zeroed before each block |
| ServerReceiverProgram.FileReceiver.Acknowledge | ASSIGNMENT4/tftp-1.0/tftpd.c:341-376 | the ACK at the loop head goes out when the machine's does, and the loop ends when the machine is done |
| ServerReceiverProgram.FileReceiver.AwaitData | ASSIGNMENT4/tftp-1.0/tftpd.c:380-507 | the wait for a block ends in abort, or with a packet about to be written as the machine has written it |
| ServerReceiverProgram.FileReceiver.TryForData | ASSIGNMENT4/tftp-1.0/tftpd.c:380-499 | one try: a stranger's datagram costs none, anything but the next block costs one |
| ServerReceiverProgram.FileReceiver.Receive | ASSIGNMENT4/tftp-1.0/tftpd.c:388-487 | payload in `filebuf`, chunk size learnt from the first packet, then the verdict by opcode and number |
| ServerReceiverProgram.FileReceiver.Retry | ASSIGNMENT4/tftp-1.0/tftpd.c:470-497 | the rest of a failed try sends what the machine sends and counts the try |
| ServerReceiverProgram.FileReceiver.WriteBlock | ASSIGNMENT4/tftp-1.0/tftpd.c:511 | `fwrite` appends the payload of the accepted packet, as the machine has |
| ServerReceiverProgram.FileReceiver.constructor | ASSIGNMENT4/tftp-1.0/tftpd.c:337-343 | counters at 0, `ackbuf` zeroed, file empty |
| ClientReceiverProgram.FileReceiver.Tget | ASSIGNMENT4/tftp-1.0/tftpc.c:596-740 | the client's `tget` ends on every inbox; its outcome, file and datagrams are the machine's on the outcomes drawn from it; it waits for nothing after its end |
| ClientReceiverProgram.FileReceiver.ReceiveBlocks | ASSIGNMENT4/tftp-1.0/tftpc.c:598-727 | the loop ends in the state the machine ends in on what was drawn from the inbox |
| ClientReceiverProgram.FileReceiver.ReceiveBlock | ASSIGNMENT4/tftp-1.0/tftpc.c:602-727 | one pass of the loop: done with the last ACK repeated, aborted, or a block written, in step with the machine |
| ClientReceiverProgram.FileReceiver.RepeatLast | ASSIGNMENT4/tftp-1.0/tftpc.c:602-618 | after the last block its ACK goes out once more, whatever the schedule, and the run is the machine's up to `done` |
| ClientReceiverProgram.FileReceiver.AwaitData | ASSIGNMENT4/tftp-1.0/tftpc.c:619-725 | the wait for a block ends in abort, or with a packet about to be written |
| ClientReceiverProgram.FileReceiver.Hear | ASSIGNMENT4/tftp-1.0/tftpc.c:620-691 | how the next event of the inbox is taken, and that the machine has then made the move the program has still to make |
| ClientReceiverProgram.FileReceiver.TryForData | ASSIGNMENT4/tftp-1.0/tftpc.c:620-719 | one try: a failed one sends no ACK again, an accepted packet is acknowledged where the schedule says |
| ClientReceiverProgram.FileReceiver.Acknowledge | ASSIGNMENT4/tftp-1.0/tftpc.c:691-712 | the datagrams sent are those before and, where the schedule asks, the ACK of the block just counted; the machine has then only the writing left |
| ClientReceiverProgram.FileReceiver.Receive | ASSIGNMENT4/tftp-1.0/tftpc.c:625-691 | the port learnt before the address is looked at, payload in `filebuf`, chunk size learnt from the first packet, then the verdict by opcode alone |
| ClientReceiverProgram.FileReceiver.LearnPort | ASSIGNMENT4/tftp-1.0/tftpc.c:629-632 | while no port is known it is taken from `data`, whether or not the wait has filled that in |
| ClientReceiverProgram.FileReceiver.Decode | ASSIGNMENT4/tftp-1.0/tftpc.c:658-691 | a packet's payload, the chunk size from the first, the verdict by opcode |
| ClientReceiverProgram.FileReceiver.Write | ASSIGNMENT4/tftp-1.0/tftpc.c:727 | `fwrite` appends the payload the machine has appended |
| ClientReceiverProgram.FileReceiver.constructor | ASSIGNMENT4/tftp-1.0/tftpc.c:571-597 | counters at 0, stale address structure, file empty |
| GetFileConservation.Conservation | ASSIGNMENT4/MY_TFTP/tftp_client.cpp:180-371 | whatever arrives, told from the bytes of the events alone: the file is the payloads (at most 1020 bytes of each) of the packets with opcode 3 that are taken, in order of arrival; every datagram sent: the k-th of them is answered with ACK k modulo 65536, silence with the latest such ACK or else the request, a refused packet with error 5, an opcode of 6 to 127 with error 4, and a complete download ends with its last ACK once more |
| GetFileConservation.LockedIff | ASSIGNMENT4/MY_TFTP/tftp_client.cpp:202-227 | the peer is refused exactly after a silence that came when a port other than 69 was known and no DATA had come |
| GetFileConservation.TakenIff | ASSIGNMENT4/MY_TFTP/tftp_client.cpp:251-260 | every DATA packet of the peer is taken if and only if there was no such silence before the first of them; else no block is ever taken |
| GetFileConservation.LateBlockRefused | ASSIGNMENT4/MY_TFTP/tftp_client.cpp:221-260 | an error packet from port p, silence, then a block: it is taken only if p is 69 |
| GetFileConservation.EndsAt | ASSIGNMENT4/MY_TFTP/tftp_client.cpp:180-371 | on every run: a block that is taken keeps the download going if full, completes it if shorter, ends it without success if longer; the client gives up exactly at the tenth try since the last block taken: silences and other packets of the peer that are looked into, refused ones and strangers' not counted |
| GetFile.LastAgreesIff | ASSIGNMENT4/MY_TFTP/tftp_client.cpp:286-294 | the client takes for last the block the sender does if and only if: for a file shorter than the chunk, it is below 512 bytes; else the chunk is at least 512, and at most 1020 or the remainder below 1020 |
| GetFile.FileArrivesIff | ASSIGNMENT4/MY_TFTP/tftp_client.cpp:180-371 | when every block arrives once, in order, the client completes with the sender's file if and only if: the file is below one chunk and below 512 bytes, or chunks have 512 to 1020 bytes (the receive buffer cuts larger ones), or the file is a single full chunk below 512 |
| GetFileProgram.Downloader.GetFile | ASSIGNMENT4/MY_TFTP/tftp_client.cpp:180-371 | `get_file` ends on every inbox; its outcome, file, counter and datagrams are the machine's on the outcomes drawn from it; it waits for nothing after its end |
| GetFileProgram.Downloader.AwaitData | ASSIGNMENT4/MY_TFTP/tftp_client.cpp:187-346 | the retry loop ends exhausted, or with a packet about to be written |
| GetFileProgram.Downloader.TryForData | ASSIGNMENT4/MY_TFTP/tftp_client.cpp:187-339 | one try: only a DATA packet that is not refused ends the loop; a stranger's or a refused one costs no try |
| GetFileProgram.Downloader.TakeBlock | ASSIGNMENT4/MY_TFTP/tftp_client.cpp:328-335 | a DATA packet is counted and acknowledged before it is written, in step with the machine |
| GetFileProgram.Downloader.RepeatLast | ASSIGNMENT4/MY_TFTP/tftp_client.cpp:206-227 | silence is answered with the latest ACK, or with the request, which sets the port back to 69 |
| GetFileProgram.Downloader.Miss | ASSIGNMENT4/MY_TFTP/tftp_client.cpp:298-310 | another packet costs a try, and a bad opcode gets an error reply |
| GetFileProgram.Downloader.SendAck | ASSIGNMENT4/MY_TFTP/tftp_client.cpp:329-334 | the ACK carries the low 16 bits of `next_packet` |
| GetFileProgram.Downloader.Receive | ASSIGNMENT4/MY_TFTP/tftp_client.cpp:195-310 | the first datagram teaches the port; a packet is refused if the port has changed since; else at most 1024 bytes are kept, the payload copied, the chunk size learnt from the first, and the opcode judged |
| GetFileProgram.Downloader.constructor | ASSIGNMENT4/MY_TFTP/tftp_client.cpp:159-176 | the state before the first wait |
| PostFileConservation.Conservation | ASSIGNMENT4/MY_TFTP/tftp_client.cpp:395-605 | whatever arrives, told from the bytes of the events alone: the block the upload is at, where it stands, the port its datagrams go to, and every datagram sent (but for the endless repetition of a block) |
| PostFileConservation.BlockAckIff | ASSIGNMENT4/MY_TFTP/tftp_client.cpp:512-595 | on every run, waiting for the ACK of block k, the upload goes on, to block k + 1 or to completion, if and only if the next packet is the peer's with opcode 4 and number k; silence and every other packet of the peer end in the endless resending, a stranger's leaves it waiting, and none is refused |
| PostFileConservation.CompleteMeansAcked | ASSIGNMENT4/MY_TFTP/tftp_client.cpp:395-605 | an upload reported complete has heard ACK 0 and the ACK of every block from its server, each while it was awaited |
| PostFileConservation.TriesTold | ASSIGNMENT4/MY_TFTP/tftp_client.cpp:395-479 | the wait for ACK 0 is given up exactly at the tenth try: silences and packets of the peer that are looked into, refused ones and strangers' not counted |
| PostFileConservation.WriteAckTakenIff | ASSIGNMENT4/MY_TFTP/tftp_client.cpp:405-475 | in the wait for ACK 0 a packet ends it if and only if it is the peer's ACK 0 and the request has not been repeated to port 69 after another port was learnt |
| PostFileConservation.HandshakeKnown | ASSIGNMENT4/MY_TFTP/tftp_client.cpp:395-475 | on every run, what TID, port, received number and tries are in that wait, told from what arrived alone |
| PostFileConservation.RefusedForEver | ASSIGNMENT4/MY_TFTP/tftp_client.cpp:435-445 | once it has been, no block is ever sent, whatever comes |
| PostFileConservation.LateAckRefused | ASSIGNMENT4/MY_TFTP/tftp_client.cpp:407-445 | a rejected packet with number 0 from port p, silence, then ACK 0: it is taken only if p is 69 |
| PostFile.SentBound | ASSIGNMENT4/MY_TFTP/tftp_client.cpp:493-605 | on every run the block counter stays at most 65536, and below it if the upload is reported complete |
| PostFile.AcksCarryOn | ASSIGNMENT4/MY_TFTP/tftp_client.cpp:567-582 | with ACK 0, ACK 1 and so on from one port, whichever, the upload reaches any block below 65536 |
| PostFile.SmallCompletes | ASSIGNMENT4/MY_TFTP/tftp_client.cpp:600-604 | so a file of fewer than 65536 blocks is reported complete |
| PostFile.CompletesIff | ASSIGNMENT4/MY_TFTP/tftp_client.cpp:493-605 | a server without trouble, on any port, brings the upload to completion if and only if the file is smaller than 65535 * 512 bytes; for a larger one no run does |
| PostFile.Step | ASSIGNMENT4/MY_TFTP/tftp_client.cpp:395-605 | every move keeps fewer than ten failed tries for ACK 0, and completion only after the last block |
| PostFileProgram.Uploader.PostFile | ASSIGNMENT4/MY_TFTP/tftp_client.cpp:395-610 | `post_file` reaches an outcome on every inbox (the endless resending is one), and that and its datagrams are the machine's on the outcomes drawn from it; it waits for nothing after its end |
| PostFileProgram.Uploader.AwaitWriteAck | ASSIGNMENT4/MY_TFTP/tftp_client.cpp:395-479 | the wait for ACK 0 ends exhausted after ten tries, or with the first block to send |
| PostFileProgram.Uploader.HearWriteAck | ASSIGNMENT4/MY_TFTP/tftp_client.cpp:395-475 | how the next event of the inbox is taken, and that the machine has then made the move the program has still to make |
| PostFileProgram.Uploader.TryForWriteAck | ASSIGNMENT4/MY_TFTP/tftp_client.cpp:395-475 | one try for ACK 0, in step with the machine |
| PostFileProgram.Uploader.AskAgain | ASSIGNMENT4/MY_TFTP/tftp_client.cpp:405-416 | silence sends the request again, to port 69, while nothing with a number has been received |
| PostFileProgram.Uploader.Miss | ASSIGNMENT4/MY_TFTP/tftp_client.cpp:455-469 | a packet that is not ACK 0 costs a try, and a bad opcode gets an error reply |
| PostFileProgram.Uploader.Fread | ASSIGNMENT4/MY_TFTP/tftp_client.cpp:494 | `fread` takes up to 512 bytes from where it stopped |
| PostFileProgram.Uploader.ReadBlock | ASSIGNMENT4/MY_TFTP/tftp_client.cpp:494-495 | `fread` puts the next block into `file_buffer`; the counter does not wrap |
| PostFileProgram.Uploader.BuildAndSend | ASSIGNMENT4/MY_TFTP/tftp_client.cpp:497-508 | the DATA packet carries the low 16 bits of the counter |
| PostFileProgram.Uploader.SendBlock | ASSIGNMENT4/MY_TFTP/tftp_client.cpp:494-512 | sends the next block and forgets the port, in step with the machine |
| PostFileProgram.Uploader.AwaitAck | ASSIGNMENT4/MY_TFTP/tftp_client.cpp:512-595 | strangers are waited out; the awaited ACK goes on, anything else is the endless loop |
| PostFileProgram.Uploader.TryForAck | ASSIGNMENT4/MY_TFTP/tftp_client.cpp:513-582 | one pass of that wait, in step with the machine |
| PostFileProgram.Uploader.SendBlocks | ASSIGNMENT4/MY_TFTP/tftp_client.cpp:493-605 | the loop ends complete or stuck, as the machine does |
| PostFileProgram.Uploader.Receive | ASSIGNMENT4/MY_TFTP/tftp_client.cpp:521-563 | the first datagram teaches the port; a packet is refused if the port has changed since; else the opcode as an unsigned byte and the number as an `int` are judged |
| PostFileProgram.Uploader.constructor | ASSIGNMENT4/MY_TFTP/tftp_client.cpp:380-393 | counters at 0, file unread |
| Chunking.BlocksPartition | ASSIGNMENT4/tftp-1.0/tftpd.c:616-640 | the blocks sent hold the whole file in order, and only the last is short |
| Chunking.FileReads | ASSIGNMENT4/tftp-1.0/tftpd.c:619 | successive `fread`s of `datasize` bytes yield those blocks |
| Chunking.BlockCount | ASSIGNMENT4/tftp-1.0/tftpd.c:786 | exactly S / D + 1 blocks are sent for a file of S bytes |
| Chunking.LastBlock | ASSIGNMENT4/tftp-1.0/tftpd.c:786 | the last block holds S mod D bytes, possibly none |
| Chunking.FileSize | ASSIGNMENT4/tftp-1.0/tftpd.c:786 | full blocks and the last one make up the size of the file |
| Chunking.BlocksOfFlatten | ASSIGNMENT4/tftp-1.0/tftpd.c:616-640 | cutting what a chunked block list holds gives that list back |
| Chunking.ReassembleBlocks | ASSIGNMENT4/tftp-1.0/tftpd.c:369 | a receiver that appends until the first short block rebuilds the file, whatever follows |
| Packets.DecodersAgree | ASSIGNMENT4/tftp-1.0/tftpd.c:445-448 | the `unsigned short` and the `int` decoder read the two number bytes as one unsigned number, sign extension notwithstanding |
| Packets.AckRoundTrip | ASSIGNMENT4/MY_TFTP/tftp_client.cpp:612-624 | an ACK printed from any integer decodes to that integer modulo 65536 |
| Packets.DataRoundTrip | ASSIGNMENT4/MY_TFTP/tftp_client.cpp:272-280 | a DATA packet decodes to its opcode, its number modulo 65536 and its payload |
| Wire.ReadAs | ASSIGNMENT4/tftp-1.0/tftpd.c:442-448 | the decoders read a packet as its bytes say: the number as two unsigned bytes, opcodes 3, 4 and 6 to 127 as those |
| Wire.PrintedAs | ASSIGNMENT4/tftp-1.0/tftpc.c:434-442 | ACK and DATA packets are printed as the bytes 0, 4 and 0, 3 and the low 16 bits of the counter, high byte first |
| Packets.FillAck | ASSIGNMENT4/tftp-1.0/tftpc.c:277-290 | `ack_packet` leaves exactly the four bytes of the ACK in the buffer (and the NUL of `sprintf`) and touches no others |
| Request.RequestRoundTripIff | ASSIGNMENT4/tftp-1.0/tftpd.c:178-193 | a printed read or write request is read back with the same opcode, filename and mode, whatever the server's arrays held, if and only if the filename has at most 194 bytes and the mode at most 10 |
| Request.ShortRequestReadsBack | ASSIGNMENT4/tftp-1.0/tftpd.c:187-193 | such a request is read back, for all contents of the arrays |
| Request.LongRequestOverruns | ASSIGNMENT4/tftp-1.0/tftpd.c:190-193 | a longer string runs past its array if the array held no NUL |
| Request.FieldReadsBack | ASSIGNMENT4/tftp-1.0/tftpd.c:190-193 | a string copied by `strncpy` with room for a NUL is read back |
| Request.ReqPacket | ASSIGNMENT4/tftp-1.0/tftpc.c:260-271 | `req_packet` leaves a zero byte, the opcode and the two strings, each with its NUL, in the buffer, and returns their length, four bytes more than the strings |
| Request.ReadField | ASSIGNMENT4/tftp-1.0/tftpd.c:190-191 | `strncpy` and `strlen` leave the string of this field in its array |
| Request.ParseRequest | ASSIGNMENT4/tftp-1.0/tftpd.c:178-203 | the parser of `main` gives malformed, unknown opcode, overrun, or the request |
| Socket.UdpSocket.RecvFrom | ASSIGNMENT4/tftp-1.0/tftpd.c:383-395 | one wait: nothing within the time limit, or the next datagram of the inbox, cut to the buffer, and the port it came from; what has been drawn is always what the inbox held at first, in order |
| Socket.OutcomeAt | ASSIGNMENT4/tftp-1.0/tftpd.c:383-395 | the waits yield the inbox's events in order and then silence |

## Left out

- Sockets, polling, time limits, `errno`, `setsockopt`, `fork`, the command line and debug output: one wait yields one outcome. The extra `recvfrom` that both senders make in debug mode only (tftpd.c:774, tftpc.c:549) is not in the model.
- Failing `fread`, `fwrite` and `sendto`: they always succeed in full.
- Connection set-up: transfers start with the request sent. tftpd knows its client's port from the request. The branches of tftpd.c and tftpc.c for a wrong identifier compare a port with the value it was set from and never run. What an address structure holds before anything is received is a parameter (`port0`, `stalePort`).
- The port a single datagram is sent to: `sent` lists the datagrams only; the machines' state has the port they go to, and the compositions with a network drop what goes elsewhere. For tftp_client.cpp ports are in the model as far as they decide what is refused.
- Other processes on the server's host: every datagram from that host is the server's, from the port of this transfer.
- Datagrams shorter than 4 bytes or longer than 1028, on which the programs read or write outside what was received; an opcode above 5 is in the model, with its effect on `len`.
- Chunk sizes below 1 (`-s 0`, `-l 0`), which send nothing, and a window of 0, which divides by zero: tftpd refuses `-a 0`, but tftpc tests another variable (tftpc.c:128) and admits `-w 0`.
- Mode, filename and directory checks, path building, opening files, and the error packets sent before a transfer starts: single-branch facts.
- SenderMachine.Step: for w above 2 only for files of at most 65535 blocks (`Config.Valid`); past that `(count - 2) % ackfreq` indexes below the slot array when the count wraps to 0, and the program's behaviour is undefined. The same holds for every claim about a sender at such a window.
- SenderProgram.FileSender.constructor: the same restriction.
- Lossless.LosslessCompletes: for sides that agree on the last block and on the schedule; `Disagreement.SmoothIff` has the rest, and `Adaptation` says exactly when they agree on the last block.
- Disagreement.LosslessSucceedsIff: for schedules that agree; with others some transfers still succeed after failed tries.
- Downloads at windows above 1 over such a network, where a client that does not look at numbers skips a lost block.
- Budget.SenderTerminates: finitely many strangers' datagrams are assumed by counting only the other waits of a finite run.
- UploadBudget.ReorderWithinBudget, UploadBudget.UploadWithinBudget: the ACK bound needs chunk sizes that agree; without that a receiver may ask for blocks past the end.
- PostFileProgram.Uploader.PostFile: the endless resending of a block is the outcome `Stuck`; its repeated datagrams are not listed.
- `next_packet` and `sent_packet` of tftp_client.cpp are unbounded here; as 32-bit integers they would need a transfer of 2^31 blocks to differ.
- SenderProgram.FileSender: one class for the `tsend` of both programs, with a `role` for the three places where they differ.
- The chat server of ASSIGNMENT3, FINAL_DOSTALK and Network_layer.
