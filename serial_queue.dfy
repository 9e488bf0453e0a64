/**
 * The USB-CDC serial byte queues of Design262 (main.c) as the firmware keeps
 * them: two fixed 64-byte arrays with their counters, updated in place by
 * the periodic tick and by the put and get routines of the main loop.
 *
 * Every method is one critical section (the firmware masks the tick around
 * each access), and each is proved to move the abstract state `Model()`
 * exactly as the matching function of `SerialModel` does.
 */
module SerialQueue {
  import opened SerialModel

  class UsbUart {
    var txQueue: array<uint8>   // uartTxQueue
    var txCount: nat            // uartTxCount
    var zlpRequired: bool       // uartZlpRequired
    var txReject: nat           // uartTxReject
    var rxQueue: array<uint8>   // uartRxQueue
    var rxCount: nat            // uartRxCount
    var rxIndex: nat            // uartRxIndex

    ghost predicate Valid()
      reads this
    {
      txQueue.Length == TxQueueSize && rxQueue.Length == RxQueueSize && txQueue != rxQueue &&
      txCount <= TxQueueSize && txReject <= MaxTxReject && rxIndex <= rxCount <= RxQueueSize
    }

    /** The abstract state: the filled prefixes of both buffers, the flags and the cursor. */
    ghost function Model(): (u: Uart)
      reads this, txQueue, rxQueue
      requires Valid()
      ensures Inv(u)
    {
      Uart(txQueue[..txCount], zlpRequired, txReject, rxQueue[..rxCount], rxIndex)
    }

    /** The power-on state: both queues empty, no ZLP pending, no rejects counted. */
    constructor ()
      ensures Valid() && fresh(txQueue) && fresh(rxQueue)
      ensures Model() == Uart([], false, 0, [], 0)
    {
      txQueue := new uint8[TxQueueSize];
      rxQueue := new uint8[RxQueueSize];
      txCount, zlpRequired, txReject := 0, false, 0;
      rxCount, rxIndex := 0, 0;
    }

    /**
     * The periodic tick. `cdcReady` and `dataReady` are the CDC driver's
     * answers; `batch` is what the driver copies into the receive buffer
     * when asked. Returns what the transmit half did.
     */
    method Tick(cdcReady: bool, dataReady: bool, batch: seq<uint8>) returns (outcome: TxOutcome)
      requires Valid() && |batch| <= RxQueueSize
      modifies this, rxQueue
      ensures Valid() && txQueue == old(txQueue) && rxQueue == old(rxQueue)
      ensures Model() == SerialModel.Tick(old(Model()), cdcReady, dataReady, batch).0
      ensures outcome == SerialModel.Tick(old(Model()), cdcReady, dataReady, batch).1
    {
      outcome := Idle;
      if txCount > 0 || zlpRequired {
        if cdcReady {
          outcome := Sent(txQueue[..txCount]);
          zlpRequired := txCount == TxQueueSize;
          txCount := 0;
          txReject := 0;
        } else {
          txReject := txReject + 1;
          if txReject > MaxTxReject {
            txCount := 0;
            txReject := 0;
            outcome := Discarded;
          } else {
            outcome := Rejected;
          }
        }
      }
      if rxIndex >= rxCount {
        if dataReady {
          forall i | 0 <= i < |batch| {
            rxQueue[i] := batch[i];
          }
          rxCount := |batch|;
          rxIndex := 0;
        }
      }
    }

    /** Stores one character at the tail of the transmit queue, which must have room. */
    method PutchSub(ch: int16)
      requires Valid() && txCount < TxQueueSize
      modifies this`txCount, txQueue
      ensures Valid() && Model() == SerialModel.PutchSub(old(Model()), ch)
    {
      txQueue[txCount] := ToByte(ch);
      txCount := txCount + 1;
      assert txQueue[..txCount] == old(txQueue[..txCount]) + [ToByte(ch)];
    }

    /** Puts one character, a line feed as carriage return then line feed. */
    method Putch(ch: int16)
      requires Valid() && txCount + |OutBytes(ch)| <= TxQueueSize
      modifies this`txCount, txQueue
      ensures Valid() && Model() == SerialModel.Putch(old(Model()), ch)
    {
      if ch == LF as int16 {
        PutchSub(CR as int16);
      }
      PutchSub(ch);
    }

    /** Takes the next received character, CR read as LF, or `NoChar` when none is unread. */
    method Getch() returns (ch: int16)
      requires Valid()
      modifies this`rxIndex
      ensures Valid()
      ensures Model() == SerialModel.Getch(old(Model())).0
      ensures ch == SerialModel.Getch(old(Model())).1
    {
      ch := NoChar;
      if rxIndex < rxCount {
        ch := rxQueue[rxIndex];
        rxIndex := rxIndex + 1;
        if ch == CR as int16 {
          ch := LF as int16;
        }
      }
    }

    /** Echoes one received character back, adding '*' after a line feed. */
    method EchoBack()
      requires Valid() && txCount + EchoRoom(Model()) <= TxQueueSize
      modifies this`txCount, this`rxIndex, txQueue
      ensures Valid() && Model() == SerialModel.EchoBack(old(Model()))
    {
      var ch := Getch();
      if ch >= 0 {
        Putch(ch);
        if ch == LF as int16 {
          Putch(Marker as int16);
        }
      }
    }
  }

  /**
   * End to end over a fresh device: a received byte arrives on a tick, the
   * echo path handles it, and the next ready tick sends exactly its echo
   * (for a carriage return: CR, LF, '*').
   */
  method EchoThroughTicks(b: uint8) returns (sent: TxOutcome)
    ensures sent == Sent(Echoed(b))
  {
    var uart := new UsbUart();
    var idle := uart.Tick(false, true, [b]);
    assert Unread(uart.Model()) == [b];
    uart.EchoBack();
    sent := uart.Tick(true, false, []);
  }
}
