/**
 What the three projectors share: how an envelope reaches apply, what its calls do, and the order in
 which new positions arrive.
 */
module Projections {
  import opened Cpkv
  import opened EventLog

  /** How the calls made for one envelope go: the read, the writes one after the other, the marker. */
  datatype Io = Io(readOk: bool, first: KvOutcome, second: KvOutcome, save: KvOutcome)

  /** One element of a batch handed to apply. */
  datatype Delivery = Delivery(position: nat, event: Envelope, io: Io)

  /** An event being applied: its planned writes and how many have been made. */
  datatype Job<W> = Job(k: nat, ws: seq<W>, done: nat)

  predicate OfKind(e: Envelope, kind: StreamType) {
    StreamOf(e).kind == kind
  }

  /** No event of the kind lies at lo, ..., hi - 1. */
  predicate NoneBetween(log: Log, kind: StreamType, lo: nat, hi: nat) {
    forall j :: lo <= j < hi && j < |log| ==> !OfKind(log[j], kind)
  }

  /** New positions arrive in log order: no event the projector must apply is jumped over. */
  predicate InOrder(log: Log, kind: StreamType, pos: nat, k: nat) {
    pos <= k < |log| && NoneBetween(log, kind, pos, k)
  }

  /** The index of the first event of the kind from j on, or the log's length. */
  function NextOf(log: Log, kind: StreamType, j: nat): (k: nat)
    ensures j <= |log| ==> j <= k <= |log| && (k < |log| ==> OfKind(log[k], kind))
    ensures NoneBetween(log, kind, j, k)
    decreases |log| - j
  {
    if j >= |log| || OfKind(log[j], kind) then j else NextOf(log, kind, j + 1)
  }

  lemma NextIs(log: Log, kind: StreamType, j: nat, k: nat)
    requires InOrder(log, kind, j, k) && OfKind(log[k], kind)
    ensures NextOf(log, kind, j) == k
  {
  }

  lemma {:induction false} NextSkips(log: Log, kind: StreamType, j: nat, k: nat)
    requires j <= k <= |log| && NoneBetween(log, kind, j, k)
    ensures NextOf(log, kind, j) == NextOf(log, kind, k)
    decreases k - j
  {
    if j < k {
      assert !OfKind(log[j], kind);
      NextSkips(log, kind, j + 1, k);
    }
  }
}
