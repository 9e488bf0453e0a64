/**
 * The bulk-OUT transfer accountant of Design262 (main.c) as the firmware
 * keeps it: two counters updated in place once per polling cycle, plus the
 * '*' marker it pushes into the serial transmit queue on a size mismatch.
 * The text lines it prints on the hardware UART are modelled by the
 * `Report` each call returns.
 */
module BulkOut {
  import opened SerialModel
  import opened BulkModel
  import SerialQueue

  class Accountant {
    var rxSize: nat    // bytes of the transfer in progress
    var rxCount: nat   // index of the transfer in progress

    function State(): Accounting
      reads this
    {
      Accounting(rxSize, rxCount)
    }

    constructor ()
      ensures State() == Accounting(0, 0)
    {
      rxSize, rxCount := 0, 0;
    }

    /**
     * One poll of the OUT endpoint. `outBufferFull` is the endpoint state the
     * driver reports and `length` the byte count of the packet it holds. A
     * mismatch also puts the '*' marker into the serial transmit queue, which
     * must then have room for it.
     */
    method Dispatch(outBufferFull: bool, length: uint16, uart: SerialQueue.UsbUart) returns (report: Report)
      requires uart.Valid()
      requires outBufferFull && Mismatches(State(), length) ==> uart.txCount < TxQueueSize
      modifies this, uart, uart.txQueue
      ensures uart.Valid() && uart.txQueue == old(uart.txQueue) && uart.rxQueue == old(uart.rxQueue)
      ensures !outBufferFull ==>
        report == Silent && State() == old(State()) && uart.Model() == old(uart.Model())
      ensures outBufferFull ==>
        State() == Step(old(State()), length).0 && report == Step(old(State()), length).1
      ensures outBufferFull ==>
        uart.Model() ==
          if report.SizeMismatch? then SerialModel.Putch(old(uart.Model()), Marker) else old(uart.Model())
    {
      report := Silent;
      if outBufferFull {
        if length > MaxPacketSize {
          report := Illegal(rxCount, length);
          rxSize := 0;
          rxCount := rxCount + 1;
        } else if length == MaxPacketSize {
          rxSize := rxSize + length;
        } else {
          rxSize := rxSize + length;
          if rxSize != TargetSize {
            report := SizeMismatch(rxCount, rxSize);
            uart.Putch(Marker as int16);
          }
          rxSize := 0;
          rxCount := rxCount + 1;
        }
      }
    }

    /** Entering the configured state starts transfer accounting afresh. */
    method EnterConfigured()
      modifies this`rxSize
      ensures State() == Accounting(0, old(rxCount))
    {
      rxSize := 0;
    }
  }

  /**
   * End to end over a fresh device: packets of 64 and 3 bytes close
   * transfer 0 at 67 bytes, and the next ready serial tick sends the
   * single '*' marker.
   */
  method ShortTransferThroughTicks() returns (first: Report, second: Report, sent: TxOutcome)
    ensures first == Silent && second == SizeMismatch(0, 67)
    ensures sent == Sent([Marker])
  {
    var uart := new SerialQueue.UsbUart();
    var accountant := new Accountant();
    first := accountant.Dispatch(true, 64, uart);
    second := accountant.Dispatch(true, 3, uart);
    sent := uart.Tick(true, false, []);
  }
}
