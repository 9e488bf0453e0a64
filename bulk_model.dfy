/**
 * Value model of the bulk-OUT transfer accountant of Design262 (main.c).
 *
 * Packets arrive on the OUT endpoint one at a time. Following the
 * short-packet framing rule of USB 2.0 bulk transfers (section 5.8.3 of the
 * USB 2.0 specification), a logical transfer is any number of full-size
 * packets closed by one packet shorter than the maximum packet size. The
 * accountant adds up the bytes of the transfer in progress (`size`, the
 * firmware's rxSize) and numbers closed transfers (`count`, its rxCount);
 * an oversized packet is illegal and also closes the transfer.
 */
module BulkModel {

  type uint16 = x: int | 0 <= x < 0x1_0000

  const MaxPacketSize: uint16 := 64
  /** The byte total every logical transfer is expected to have. */
  const TargetSize: nat := 2052

  /** The diagnostic one packet produces, with the index of the transfer it closes. */
  datatype Report =
    | Silent
    | Illegal(transfer: nat, length: nat)
    | SizeMismatch(transfer: nat, size: nat)

  datatype Accounting = Accounting(size: nat, count: nat)

  /** Whether a packet of this length ends the logical transfer. */
  predicate Closes(length: uint16) {
    length != MaxPacketSize
  }

  /** Whether a packet of this length closes the transfer with a wrong total. */
  predicate Mismatches(a: Accounting, length: uint16) {
    length < MaxPacketSize && a.size + length != TargetSize
  }

  /** Accounts for one received packet. */
  function Step(a: Accounting, length: uint16): (r: (Accounting, Report))
    ensures Closes(length) ==> r.0 == Accounting(0, a.count + 1)
    ensures !Closes(length) ==> r.0 == a.(size := a.size + MaxPacketSize) && r.1 == Silent
    ensures r.1.Illegal? <==> length > MaxPacketSize
    ensures r.1.SizeMismatch? <==> Mismatches(a, length)
    ensures r.1 != Silent ==> r.1.transfer == a.count
    ensures r.1.Illegal? ==> r.1.length == length
    ensures r.1.SizeMismatch? ==> r.1.size == a.size + length
  {
    if length > MaxPacketSize then
      (Accounting(0, a.count + 1), Illegal(a.count, length))
    else if length == MaxPacketSize then
      (Accounting(a.size + length, a.count), Silent)
    else
      var total := a.size + length;
      (Accounting(0, a.count + 1), if total != TargetSize then SizeMismatch(a.count, total) else Silent)
  }

  /** The reports that reach the log: everything but `Silent`. */
  function Logged(report: Report): seq<Report> {
    if report == Silent then [] else [report]
  }

  /** Accounts for a sequence of packets, collecting the non-silent reports in order. */
  function Run(a: Accounting, packets: seq<uint16>): (r: (Accounting, seq<Report>))
    decreases |packets|
  {
    if packets == [] then (a, [])
    else
      var step := Step(a, packets[0]);
      var rest := Run(step.0, packets[1..]);
      (rest.0, Logged(step.1) + rest.1)
  }

  /** Running two packet sequences one after the other is running their concatenation. */
  lemma {:induction false} RunAppend(a: Accounting, p: seq<uint16>, q: seq<uint16>)
    ensures Run(a, p + q).0 == Run(Run(a, p).0, q).0
    ensures Run(a, p + q).1 == Run(a, p).1 + Run(Run(a, p).0, q).1
    decreases |p|
  {
    if p != [] {
      var b := Step(a, p[0]).0;
      assert (p + q)[0] == p[0] && (p + q)[1..] == p[1..] + q;
      RunAppend(b, p[1..], q);
    } else {
      assert p + q == q;
    }
  }

  /** `k` full-size packets. */
  function FullPackets(k: nat): (p: seq<uint16>)
    ensures |p| == k && forall i :: 0 <= i < k ==> p[i] == MaxPacketSize
  {
    if k == 0 then [] else [MaxPacketSize] + FullPackets(k - 1)
  }

  /** Full-size packets never close a transfer: they only add to its size. */
  lemma {:induction false} FullPacketsKeepTransferOpen(a: Accounting, k: nat)
    ensures Run(a, FullPackets(k)).0 == a.(size := a.size + MaxPacketSize * k)
    ensures Run(a, FullPackets(k)).1 == []
    decreases k
  {
    if k > 0 {
      var b := a.(size := a.size + MaxPacketSize);
      FullPacketsKeepTransferOpen(b, k - 1);
      assert Step(a, FullPackets(k)[0]) == (b, Silent);
      assert FullPackets(k)[1..] == FullPackets(k - 1);
    }
  }

  /**
   * A transfer of `k` full packets and one short packet closes with a
   * mismatch report exactly when its total differs from `TargetSize`, and
   * leaves the accountant ready for the next transfer.
   */
  lemma TransferOutcome(a: Accounting, k: nat, last: uint16)
    requires last < MaxPacketSize
    ensures var total := a.size + MaxPacketSize * k + last;
      Run(a, FullPackets(k) + [last]).0 == Accounting(0, a.count + 1) &&
      Run(a, FullPackets(k) + [last]).1 ==
        if total == TargetSize then [] else [SizeMismatch(a.count, total)]
  {
    RunAppend(a, FullPackets(k), [last]);
    FullPacketsKeepTransferOpen(a, k);
  }

  /** A well-framed logical transfer: full-size packets closed by one short packet. */
  predicate Framed(p: seq<uint16>) {
    |p| > 0 && p[|p| - 1] < MaxPacketSize &&
    forall i :: 0 <= i < |p| - 1 ==> p[i] == MaxPacketSize
  }

  function Sum(p: seq<uint16>): nat {
    if p == [] then 0 else p[0] + Sum(p[1..])
  }

  lemma {:induction false} FramedShape(p: seq<uint16>)
    requires Framed(p)
    ensures p == FullPackets(|p| - 1) + [p[|p| - 1]]
    ensures Sum(p) == MaxPacketSize * (|p| - 1) + p[|p| - 1]
    decreases |p|
  {
    if |p| > 1 {
      FramedShape(p[1..]);
    }
  }

  /**
   * A well-framed transfer started from a cleared accountant reports a size
   * mismatch, carrying its index and total, exactly when its bytes do not
   * add up to `TargetSize`; either way the next transfer starts from zero.
   */
  lemma FramedTransfer(c: nat, p: seq<uint16>)
    requires Framed(p)
    ensures Run(Accounting(0, c), p).0 == Accounting(0, c + 1)
    ensures Run(Accounting(0, c), p).1 ==
      if Sum(p) == TargetSize then [] else [SizeMismatch(c, Sum(p))]
  {
    FramedShape(p);
    TransferOutcome(Accounting(0, c), |p| - 1, p[|p| - 1]);
  }

  /** Packets 64 then 3 report transfer 0 as 67 bytes. */
  lemma ShortTransferReported()
    ensures Run(Accounting(0, 0), [64, 3]).0 == Accounting(0, 1)
    ensures Run(Accounting(0, 0), [64, 3]).1 == [SizeMismatch(0, 67)]
  {
  }

  /** Thirty-two full packets then 4 bytes make exactly 2052 bytes: nothing is reported. */
  lemma ExactTransferSilent()
    ensures Run(Accounting(0, 0), FullPackets(32) + [4]).0 == Accounting(0, 1)
    ensures Run(Accounting(0, 0), FullPackets(32) + [4]).1 == []
  {
    TransferOutcome(Accounting(0, 0), 32, 4);
  }

  /** An oversized packet ends the transfer whatever was accumulated: the next packet counts from zero. */
  lemma OversizedRestarts(a: Accounting, length: uint16, q: seq<uint16>)
    requires length > MaxPacketSize
    ensures Run(a, [length] + q).0 == Run(Accounting(0, a.count + 1), q).0
    ensures Run(a, [length] + q).1 == [Illegal(a.count, length)] + Run(Accounting(0, a.count + 1), q).1
  {
    var p := [length] + q;
    assert p[0] == length && p[1..] == q;
    assert Step(a, length).1 == Illegal(a.count, length);
  }

  /** How many packets of `p` close a transfer. */
  function Closings(p: seq<uint16>): nat {
    if p == [] then 0 else (if Closes(p[0]) then 1 else 0) + Closings(p[1..])
  }

  /**
   * The transfer index counts closed transfers, and the reports come at most
   * one per closed transfer, in increasing transfer order, each naming a
   * transfer closed during the run.
   */
  lemma {:induction false} ReportsFollowTransfers(a: Accounting, p: seq<uint16>)
    ensures Run(a, p).0.count == a.count + Closings(p)
    ensures |Run(a, p).1| <= Closings(p)
    ensures forall i :: 0 <= i < |Run(a, p).1| ==>
      Run(a, p).1[i] != Silent && a.count <= Run(a, p).1[i].transfer < Run(a, p).0.count
    ensures forall i, j :: 0 <= i < j < |Run(a, p).1| ==>
      Run(a, p).1[i].transfer < Run(a, p).1[j].transfer
    decreases |p|
  {
    if p != [] {
      var (b, report) := Step(a, p[0]);
      ReportsFollowTransfers(b, p[1..]);
    }
  }
}
