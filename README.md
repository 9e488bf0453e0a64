# Design262 bulk-transfer firmware in Dafny

This project models the two state machines at the heart of the Design262
USB full-speed test firmware (`Design262.cydsn/main.c`):

- **The USB-CDC serial byte queues.** A 64-byte transmit queue (fill count,
  zero-length-packet flag, busy-reject counter) and a 64-byte receive queue
  (fill count, read cursor). A periodic interrupt tick flushes the transmit
  queue to the CDC transport, or counts a busy reject and drops the whole
  batch on the fifth busy tick in a row. It also refills the receive queue
  once every byte has been read. The main loop puts characters (a line feed
  goes out as CR LF), gets characters (a CR reads as LF, `-1` means none)
  and echoes received characters back (adding `'*'` after a line end).
- **The bulk-OUT transfer accountant.** It follows the short-packet framing
  rule of USB 2.0 bulk transfers (section 5.8.3 of the USB 2.0
  specification). It adds up the bytes of the logical transfer in progress
  (`rxSize`) over full 64-byte packets. A short packet closes the transfer
  and reports a mismatch when the total is not 2052 bytes. An oversized
  packet is reported as illegal and also closes the transfer. Each close
  advances the transfer index `rxCount`. Entering the configured USB state
  clears `rxSize`.

Layout:

- `serial_model.dfy`, module `SerialModel`: the queue state as a value
  (`Uart`), one function per routine, and the lemmas about several steps
  (stall policy, ZLP sequence, in-order reads, echo).
- `serial_queue.dfy`, module `SerialQueue`: class `UsbUart` over two fixed
  `array<uint8>` buffers and the firmware's counters. Each method is one
  critical section. Each is proved to move the abstract state `Model()`
  exactly as the matching `SerialModel` function does.
- `bulk_model.dfy`, module `BulkModel`: the accountant as a value
  (`Accounting`), the per-packet `Step`, runs over packet sequences, and the
  framing lemmas.
- `bulk_out.dfy`, module `BulkOut`: class `Accountant` with the `rxSize` and
  `rxCount` fields, updated in place by `Dispatch` and `EnterConfigured`.

The driver is not modelled. Its answers are parameters:
`USBFS_CDCIsReady` is `cdcReady`, `USBFS_DataIsReady` is `dataReady`, the
bytes `USBFS_GetAll` delivers are `batch`, the OUT endpoint's buffer-full
state is `outBufferFull` and `USBFS_GetEPCount` is `length`. The bytes
handed to `USBFS_PutData` are returned as `Sent(packet)`. The text lines
printed with `sprintf`/`UART_PutString` are returned as abstract `Report`
values carrying the transfer index and the length or size.

The stall discard (main.c:58-62) clears the queued bytes but not
`uartZlpRequired`. With a ZLP pending and the transport busy, the reject
counter therefore cycles through 0..4 for as long as the stall lasts
(`StalledZeroLengthPacket`).

## Model

| member | source | states |
|---|---|---|
| `SerialModel.TxTick` | Design262.cydsn/main.c:50-63 | keeps the invariant (count ≤ 64, reject ≤ 4); never touches the receive side; the transmit queue is either kept whole or emptied, never partly dropped; a `Sent` packet is the whole queue |
| `SerialModel.RxTick` | Design262.cydsn/main.c:64-71 | keeps 0 ≤ cursor ≤ count ≤ 64 for a batch of at most 64 bytes; never touches the transmit side; never overwrites a byte that has not been read |
| `SerialModel.Tick` | Design262.cydsn/main.c:49-72 | one interrupt tick keeps the queue invariant |
| `SerialModel.ToByte` | Design262.cydsn/main.c:80 | storing a 16-bit character in the 8-bit queue keeps a byte value unchanged and otherwise keeps it modulo 256 |
| `SerialModel.PutchSub` | Design262.cydsn/main.c:74-82 | with room in the queue, stores the byte at index count, grows the count by exactly one, leaves earlier bytes and all other state unchanged; count stays ≤ 64 |
| `SerialModel.Putch` | Design262.cydsn/main.c:85-90 | a line feed appends CR then LF, any other character appends just that character; nothing else changes |
| `SerialModel.Translate` | Design262.cydsn/main.c:99-101 | input normalisation turns CR into LF and changes no other byte |
| `SerialModel.Getch` | Design262.cydsn/main.c:93-105 | with nothing unread returns -1 and changes nothing; otherwise returns the byte at the cursor with CR read as LF and advances the cursor by exactly one |
| `SerialModel.EchoBack` | Design262.cydsn/main.c:144-154 | with nothing unread changes nothing; otherwise consumes one byte and appends its echo: the byte itself, or CR LF `'*'` for a received CR or LF |
| `SerialModel.IdleTxTick` | Design262.cydsn/main.c:51 | with nothing queued and no ZLP pending the transmit half does nothing |
| `SerialModel.ReadyTxTickFlushes` | Design262.cydsn/main.c:51-57 | transport ready and something pending: the whole queue is sent, count and reject become 0, and the ZLP flag is set exactly when 64 bytes were sent |
| `SerialModel.FullFlushThenZeroLengthPacket` | Design262.cydsn/main.c:51-57 | flushing a full queue sets the ZLP flag; the next ready tick sends a zero-length packet and clears it; the tick after that is idle |
| `SerialModel.IdleBusyTicks` | Design262.cydsn/main.c:51 | any number of busy ticks on an empty queue with no ZLP pending change nothing |
| `SerialModel.StalledTransport` | Design262.cydsn/main.c:58-62 | under n consecutive busy ticks the batch is kept and reject grows to reject + n while that is ≤ 4; past that the whole batch is gone and reject is 0 |
| `SerialModel.FifthBusyTickDiscards` | Design262.cydsn/main.c:58-62 | from reject 0, four busy ticks keep the batch and the fifth drops it and resets the counter |
| `SerialModel.StalledZeroLengthPacket` | Design262.cydsn/main.c:51-62 | with a ZLP pending, n busy ticks keep the flag, leave reject at (reject + n) mod 5, and keep the batch only while reject + n ≤ 4 |
| `SerialModel.RefillWhenDrained` | Design262.cydsn/main.c:65-71 | once every byte has been read, a tick with data ready makes the new batch exactly the unread bytes; without data ready nothing changes |
| `SerialModel.GetsReadInOrder` | Design262.cydsn/main.c:93-105 | n successive gets return the first n unread bytes in order, each CR read as LF, and leave exactly the rest unread |
| `SerialModel.GetsOnDrainedQueue` | Design262.cydsn/main.c:94-104 | on a drained queue every get returns -1 and the state never changes |
| `SerialModel.EchoExamples` | Design262.cydsn/main.c:144-154 | echoing a received CR appends CR, LF, `'*'`; echoing `'a'` appends `'a'` |
| `SerialQueue.UsbUart.constructor` | Design262.cydsn/main.c:30-38 | both queues start empty, with no ZLP pending and no rejects |
| `SerialQueue.UsbUart.Tick` | Design262.cydsn/main.c:49-72 | the in-place tick over the two arrays keeps the object invariant and moves the abstract state as `SerialModel.Tick`, returning what was handed to the transport |
| `SerialQueue.UsbUart.PutchSub` | Design262.cydsn/main.c:74-82 | writing `txQueue[txCount]` and bumping the count moves the abstract state as `SerialModel.PutchSub` |
| `SerialQueue.UsbUart.Putch` | Design262.cydsn/main.c:85-90 | moves the abstract state as `SerialModel.Putch` |
| `SerialQueue.UsbUart.Getch` | Design262.cydsn/main.c:93-105 | returns and moves the cursor as `SerialModel.Getch` |
| `SerialQueue.UsbUart.EchoBack` | Design262.cydsn/main.c:144-154 | moves the abstract state as `SerialModel.EchoBack` |
| `SerialQueue.EchoThroughTicks` | Design262.cydsn/main.c:49-72 | on a fresh device, a byte received on one tick and echoed is sent on the next ready tick as exactly its echo |
| `BulkModel.Step` | Design262.cydsn/main.c:121-140 | a packet closes the transfer (size 0, index + 1) unless it is exactly 64 bytes; a full packet adds 64 and reports nothing; `Illegal` exactly when the length exceeds 64; `SizeMismatch` exactly when a short packet brings the total to anything but 2052; every report names the transfer it closes and carries the illegal length or the mismatched total |
| `BulkModel.FullPacketsKeepTransferOpen` | Design262.cydsn/main.c:127-129 | any number k of full packets keeps the transfer open, adds 64·k bytes and reports nothing |
| `BulkModel.TransferOutcome` | Design262.cydsn/main.c:127-140 | k full packets then a short one close the transfer, clear the size, advance the index by one, and report a mismatch with index and total exactly when the total is not 2052 |
| `BulkModel.FramedTransfer` | Design262.cydsn/main.c:127-140 | any well-framed transfer from a cleared accountant is reported exactly when its byte sum is not 2052 |
| `BulkModel.ShortTransferReported` | Design262.cydsn/main.c:130-139 | packets 64, 3 report transfer 0 at 67 bytes |
| `BulkModel.ExactTransferSilent` | Design262.cydsn/main.c:130-139 | thirty-two full packets then 4 bytes report nothing and close the transfer |
| `BulkModel.OversizedRestarts` | Design262.cydsn/main.c:121-126 | an oversized packet reports `Illegal` and the following packets are accounted from size 0, whatever had accumulated |
| `BulkModel.ReportsFollowTransfers` | Design262.cydsn/main.c:121-140 | the index advances once per closing packet; at most one report per closed transfer, in increasing transfer order, each naming a transfer closed in the run |
| `BulkOut.Accountant.constructor` | Design262.cydsn/main.c:45-46 | the accountant starts at size 0, index 0 |
| `BulkOut.Accountant.Dispatch` | Design262.cydsn/main.c:107-142 | without a full OUT buffer nothing changes; otherwise the counters move and the report is as `BulkModel.Step`, and a size mismatch also puts `'*'` into the serial transmit queue |
| `BulkOut.Accountant.EnterConfigured` | Design262.cydsn/main.c:180 | entering the configured state clears the size and keeps the index |
| `BulkOut.ShortTransferThroughTicks` | Design262.cydsn/main.c:121-140 | on a fresh device, packets 64 then 3 give no report then a mismatch for transfer 0 at 67 bytes, and the next ready serial tick sends the single `'*'` |

## Left out

- The retry loop in `putch_sub` (main.c:75-79) only makes progress because the interrupt drains the queue meanwhile. Each step here is atomic, so `PutchSub`, `Putch`, `EchoBack` and `Dispatch` instead require the transmit room they will use.
- The interrupt enable/disable pairs around each queue access are not modelled: every method is one atomic step, so interleaving with the tick is not captured.
- All USB and UART driver calls (`USBFS_*`, `UART_Start`, `UART_PutString`, `CyDelayUs`, `CyGlobalIntEnable`) are hardware I/O. Their answers are parameters. The payload copy of `USBFS_ReadOutEP` into `buffer_out` is not modelled, since nothing reads it. The fixed NAK delay has no effect on the state.
- The `sprintf` text of the two diagnostic lines is replaced by the abstract `Report` values.
- The session loop in `main` (enumeration wait, configuration-change detection, line-change events) is hardware polling. Only the `rxSize = 0` reset on entering the configured state is kept (`EnterConfigured`).
- The BULK-IN refill (`buffer_in[0]++` and `USBFS_LoadInEP`, main.c:193-198) only feeds a driver call and is not modelled.
- The 32-bit widths of `rxSize` and `rxCount` are not modelled; both are unbounded naturals. Wrap-around needs 2^32 transfers or bytes in one transfer.
- The 8-bit widths of `uartTxCount`, `uartTxReject`, `uartRxCount` and `uartRxIndex` are unbounded naturals. The invariant keeps them at most 64, so they never wrap.
- The batch that `USBFS_GetAll` delivers is assumed to be at most 64 bytes, the receive buffer's size; the driver's bound is not part of this model.
