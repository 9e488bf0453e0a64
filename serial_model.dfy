/**
 * Value model of the USB-CDC serial byte queues of Design262 (main.c).
 *
 * The firmware keeps a 64-byte transmit queue with a fill count, a
 * zero-length-packet (ZLP) flag and a busy-reject counter, and a 64-byte
 * receive queue with a fill count and a read cursor. A periodic tick flushes
 * the transmit queue to the CDC transport and refills the receive queue;
 * the main loop puts and gets characters. Each routine runs with the tick
 * masked, so each is one atomic step here.
 *
 * A `Uart` value is the abstract state of both queues: `tx` is the filled
 * prefix of the transmit buffer, `rx` the filled prefix of the receive buffer
 * and `rxIndex` the read cursor into it.
 */
module SerialModel {

  type uint8 = x: int | 0 <= x < 0x100
  type int16 = x: int | -0x8000 <= x < 0x8000

  const TxQueueSize: nat := 64
  const RxQueueSize: nat := 64
  /** Busy ticks tolerated before the pending transmit batch is dropped. */
  const MaxTxReject: nat := 4

  const LF: uint8 := 10
  const CR: uint8 := 13
  /** The `'*'` marker byte. */
  const Marker: uint8 := 42
  /** What a get returns when the receive queue holds no unread byte. */
  const NoChar: int16 := -1

  datatype Uart = Uart(tx: seq<uint8>, zlp: bool, reject: nat, rx: seq<uint8>, rxIndex: nat)

  /** What the transmit half of one tick did. */
  datatype TxOutcome =
    | Idle                       // nothing queued and no ZLP pending
    | Sent(packet: seq<uint8>)   // the whole queue was handed to the transport
    | Rejected                   // transport busy, batch kept, reject counted
    | Discarded                  // transport busy once too often, batch dropped

  /** The invariant every reachable state keeps. */
  predicate Inv(u: Uart) {
    |u.tx| <= TxQueueSize && u.reject <= MaxTxReject && u.rxIndex <= |u.rx| <= RxQueueSize
  }

  /** The received bytes not yet handed out by a get. */
  function Unread(u: Uart): seq<uint8>
    requires Inv(u)
  {
    u.rx[u.rxIndex..]
  }

  // ---------------------------------------------------------------- the tick

  /** Transmit half of the periodic tick; `cdcReady` is the transport's answer. */
  function TxTick(u: Uart, cdcReady: bool): (r: (Uart, TxOutcome))
    requires Inv(u)
    ensures Inv(r.0)
    ensures r.0.rx == u.rx && r.0.rxIndex == u.rxIndex
    ensures r.0.tx == u.tx || r.0.tx == []
    ensures r.1.Sent? ==> r.1.packet == u.tx && r.0.tx == []
  {
    if |u.tx| > 0 || u.zlp then
      if cdcReady then
        (u.(tx := [], zlp := |u.tx| == TxQueueSize, reject := 0), Sent(u.tx))
      else if u.reject + 1 > MaxTxReject then
        (u.(tx := [], reject := 0), Discarded)
      else
        (u.(reject := u.reject + 1), Rejected)
    else
      (u, Idle)
  }

  /**
   * Receive half of the periodic tick; `dataReady` is the transport's answer
   * and `batch` what it delivers when asked.
   */
  function RxTick(u: Uart, dataReady: bool, batch: seq<uint8>): (r: Uart)
    requires Inv(u) && |batch| <= RxQueueSize
    ensures Inv(r)
    ensures r.tx == u.tx && r.zlp == u.zlp && r.reject == u.reject
    ensures Unread(u) != [] ==> r == u
  {
    if u.rxIndex >= |u.rx| && dataReady then u.(rx := batch, rxIndex := 0) else u
  }

  /** One periodic tick: transmit half, then receive half. */
  function Tick(u: Uart, cdcReady: bool, dataReady: bool, batch: seq<uint8>): (r: (Uart, TxOutcome))
    requires Inv(u) && |batch| <= RxQueueSize
    ensures Inv(r.0)
  {
    var (v, outcome) := TxTick(u, cdcReady);
    (RxTick(v, dataReady, batch), outcome)
  }

  // ------------------------------------------------------------ put and get

  /** The byte a 16-bit character becomes when stored in the 8-bit queue. */
  function ToByte(ch: int16): (b: uint8)
    ensures 0 <= ch < 0x100 ==> b == ch
    ensures (ch - b) % 0x100 == 0
  {
    ch % 0x100
  }

  /** Appends one character to the transmit queue, which must have room. */
  function PutchSub(u: Uart, ch: int16): (r: Uart)
    requires Inv(u) && |u.tx| < TxQueueSize
    ensures Inv(r)
    ensures |r.tx| == |u.tx| + 1 && r.tx[..|u.tx|] == u.tx && r.tx[|u.tx|] == ToByte(ch)
    ensures r.(tx := u.tx) == u
  {
    u.(tx := u.tx + [ToByte(ch)])
  }

  /** The bytes a put of `ch` must enqueue: a line feed goes out as CR LF. */
  function OutBytes(ch: int16): (s: seq<uint8>)
    ensures 1 <= |s| <= 2
  {
    if ch == LF as int16 then [CR, LF] else [ToByte(ch)]
  }

  /** Puts one character, sending a line feed as carriage return then line feed. */
  function Putch(u: Uart, ch: int16): (r: Uart)
    requires Inv(u) && |u.tx| + |OutBytes(ch)| <= TxQueueSize
    ensures Inv(r)
    ensures r.tx == u.tx + OutBytes(ch)
    ensures r.(tx := u.tx) == u
  {
    if ch == LF as int16 then PutchSub(PutchSub(u, CR), ch) else PutchSub(u, ch)
  }

  /** Input line-end normalisation: a carriage return reads as a line feed. */
  function Translate(b: uint8): (c: uint8)
    ensures b == CR ==> c == LF
    ensures b != CR ==> c == b
  {
    if b == CR then LF else b
  }

  /** Takes the next unread byte, or reports `NoChar` when there is none. */
  function Getch(u: Uart): (r: (Uart, int16))
    requires Inv(u)
    ensures Inv(r.0)
    ensures Unread(u) == [] ==> r == (u, NoChar)
    ensures Unread(u) != [] ==>
      r.1 == Translate(Unread(u)[0]) as int16 && Unread(r.0) == Unread(u)[1..] &&
      r.0 == u.(rxIndex := u.rxIndex + 1)
  {
    if u.rxIndex < |u.rx| then
      (u.(rxIndex := u.rxIndex + 1), Translate(u.rx[u.rxIndex]) as int16)
    else
      (u, NoChar)
  }

  // -------------------------------------------------------------- echo back

  /** What the echo path sends for a received byte: the byte, or CR LF '*' for a line end. */
  function Echoed(b: uint8): (s: seq<uint8>)
    ensures |s| <= 3
  {
    if b == CR || b == LF then [CR, LF, Marker] else [b]
  }

  /** Transmit room one echo step needs. */
  function EchoRoom(u: Uart): (n: nat)
    requires Inv(u)
    ensures n <= 3
  {
    if Unread(u) == [] then 0 else |Echoed(Unread(u)[0])|
  }

  /** Reads one character and writes it back, adding '*' after a line feed. */
  function EchoBack(u: Uart): (r: Uart)
    requires Inv(u) && |u.tx| + EchoRoom(u) <= TxQueueSize
    ensures Inv(r)
    ensures Unread(u) == [] ==> r == u
    ensures Unread(u) != [] ==>
      r.tx == u.tx + Echoed(Unread(u)[0]) && Unread(r) == Unread(u)[1..] &&
      r.zlp == u.zlp && r.reject == u.reject && r.rx == u.rx
  {
    var (v, ch) := Getch(u);
    if ch >= 0 then
      var w := Putch(v, ch);
      if ch == LF as int16 then Putch(w, Marker) else w
    else
      v
  }

  // ------------------------------------------------------- transmit lemmas

  /** A tick with nothing queued and no ZLP pending leaves the state alone. */
  lemma IdleTxTick(u: Uart, cdcReady: bool)
    requires Inv(u) && u.tx == [] && !u.zlp
    ensures TxTick(u, cdcReady) == (u, Idle)
  {
  }

  /**
   * A tick with the transport ready and something pending hands the whole
   * queue over, clears the queue and the reject counter, and requests a ZLP
   * exactly when the queue was full.
   */
  lemma ReadyTxTickFlushes(u: Uart)
    requires Inv(u) && (u.tx != [] || u.zlp)
    ensures TxTick(u, true) ==
      (u.(tx := [], reject := 0, zlp := |u.tx| == TxQueueSize), Sent(u.tx))
  {
  }

  /**
   * Flushing a full queue sets the ZLP flag; the next ready tick sends the
   * zero-length packet and clears it; the tick after that is idle.
   */
  lemma FullFlushThenZeroLengthPacket(u: Uart)
    requires Inv(u) && |u.tx| == TxQueueSize
    ensures var (u1, o1) := TxTick(u, true);
      o1 == Sent(u.tx) && u1.zlp && u1.tx == [] &&
      var (u2, o2) := TxTick(u1, true);
      o2 == Sent([]) && !u2.zlp && u2.tx == [] && u2.reject == 0 &&
      TxTick(u2, true) == (u2, Idle)
  {
  }

  /** The state after `n` consecutive ticks with the transport busy and no receive data. */
  function BusyTicks(u: Uart, n: nat): (r: Uart)
    requires Inv(u)
    ensures Inv(r)
    decreases n
  {
    if n == 0 then u else BusyTicks(Tick(u, false, false, []).0, n - 1)
  }

  lemma {:induction false} IdleBusyTicks(u: Uart, n: nat)
    requires Inv(u) && u.tx == [] && !u.zlp
    ensures BusyTicks(u, n) == u
    decreases n
  {
    if n > 0 {
      assert Tick(u, false, false, []).0 == u;
      IdleBusyTicks(u, n - 1);
    }
  }

  /**
   * Backpressure on a stalled transport: the queued batch is kept untouched
   * while the reject count stays within `MaxTxReject`; the busy tick that
   * would exceed it drops the whole batch and clears the counter, after
   * which nothing more happens.
   */
  lemma {:induction false} StalledTransport(u: Uart, n: nat)
    requires Inv(u) && u.tx != [] && !u.zlp
    ensures BusyTicks(u, n) ==
      if u.reject + n <= MaxTxReject then u.(reject := u.reject + n)
      else u.(tx := [], reject := 0)
    decreases n
  {
    if n > 0 {
      var v := Tick(u, false, false, []).0;
      if u.reject + 1 <= MaxTxReject {
        assert v == u.(reject := u.reject + 1);
        StalledTransport(v, n - 1);
      } else {
        assert v == u.(tx := [], reject := 0);
        IdleBusyTicks(v, n - 1);
      }
    }
  }

  /** From a fresh reject count, the fifth consecutive busy tick is the one that drops the batch. */
  lemma FifthBusyTickDiscards(u: Uart)
    requires Inv(u) && u.tx != [] && !u.zlp && u.reject == 0
    ensures BusyTicks(u, 4) == u.(reject := 4)
    ensures BusyTicks(u, 5) == u.(tx := [], reject := 0)
  {
    StalledTransport(u, 4);
    StalledTransport(u, 5);
  }

  /**
   * A pending ZLP is never dropped by the stall policy: the discard clears
   * the queue but keeps the flag, so the reject counter cycles through
   * 0..MaxTxReject for as long as the transport stays busy.
   */
  lemma {:induction false} StalledZeroLengthPacket(u: Uart, n: nat)
    requires Inv(u) && u.zlp
    ensures BusyTicks(u, n) ==
      u.(tx := if u.reject + n <= MaxTxReject then u.tx else [],
         reject := (u.reject + n) % (MaxTxReject + 1))
    decreases n
  {
    if n > 0 {
      var v := Tick(u, false, false, []).0;
      if u.reject + 1 <= MaxTxReject {
        assert v == u.(reject := u.reject + 1);
        StalledZeroLengthPacket(v, n - 1);
      } else {
        assert v == u.(tx := [], reject := 0);
        StalledZeroLengthPacket(v, n - 1);
        assert (u.reject + n) % (MaxTxReject + 1) == (n - 1) % (MaxTxReject + 1);
      }
    }
  }

  // -------------------------------------------------------- receive lemmas

  /**
   * The receive half refills only when every byte has been read and the
   * transport has data; the new batch is then what the following gets see.
   */
  lemma RefillWhenDrained(u: Uart, batch: seq<uint8>)
    requires Inv(u) && |batch| <= RxQueueSize && Unread(u) == []
    ensures Unread(RxTick(u, true, batch)) == batch
    ensures RxTick(u, false, batch) == u
  {
  }

  /** The state and characters after `n` consecutive gets. */
  function GetchN(u: Uart, n: nat): (r: (Uart, seq<int16>))
    requires Inv(u)
    ensures Inv(r.0) && |r.1| == n
    decreases n
  {
    if n == 0 then (u, [])
    else
      var (v, ch) := Getch(u);
      var (w, chs) := GetchN(v, n - 1);
      (w, [ch] + chs)
  }

  /** The characters a sequence of received bytes reads as. */
  function TranslateAll(s: seq<uint8>): (t: seq<int16>)
    ensures |t| == |s|
  {
    if s == [] then [] else [Translate(s[0]) as int16] + TranslateAll(s[1..])
  }

  /**
   * Successive gets hand out the unread bytes in order, each carriage return
   * read as a line feed, and consume exactly as many bytes as were asked for.
   */
  lemma {:induction false} GetsReadInOrder(u: Uart, n: nat)
    requires Inv(u) && n <= |Unread(u)|
    ensures GetchN(u, n).1 == TranslateAll(Unread(u)[..n])
    ensures Unread(GetchN(u, n).0) == Unread(u)[n..]
    decreases n
  {
    if n > 0 {
      var v := Getch(u).0;
      GetsReadInOrder(v, n - 1);
      assert Unread(u)[..n][1..] == Unread(v)[..n - 1];
      assert Unread(u)[n..] == Unread(v)[n - 1..];
    }
  }

  /** Once every byte is read, further gets return `NoChar` and change nothing. */
  lemma {:induction false} GetsOnDrainedQueue(u: Uart, n: nat)
    requires Inv(u) && Unread(u) == []
    ensures GetchN(u, n).0 == u
    ensures forall i :: 0 <= i < n ==> GetchN(u, n).1[i] == NoChar
    decreases n
  {
    if n > 0 {
      GetsOnDrainedQueue(u, n - 1);
    }
  }

  // ----------------------------------------------------------- echo lemmas

  /** Echo of a received carriage return sends CR, LF, '*'; echo of 'a' sends 'a'. */
  lemma EchoExamples(u: Uart)
    requires Inv(u) && |u.tx| + 3 <= TxQueueSize && Unread(u) != []
    ensures Unread(u)[0] == CR ==> EchoBack(u).tx == u.tx + [CR, LF, Marker]
    ensures Unread(u)[0] == 'a' as uint8 ==> EchoBack(u).tx == u.tx + ['a' as uint8]
  {
  }
}
