/**
 Whole lives of the engine: writes, failed appends and commits, crashes that lose an unsynced tail,
 recoveries, and flushes that may be cut short. The invariant ties log, memtable and segments to the
 writes that were acknowledged and to those whose commit failed.
 */
module EngineRuns {
  import opened Wrappers
  import opened Numbers
  import opened Bytes
  import opened Cursors
  import opened RowCodec
  import opened Memtables
  import opened Engines

  /**
   The log file and how many of its records are known durable; the manifest's checkpoint; the running
   engine, if it is up; the record appended but not yet committed; the writes of each flushed segment and
   those in the memtable; and the segments' visible entries. Beside them, what callers were told: the
   writes acknowledged, and those whose commit failed, since the last start or flush and ever.
   */
  datatype World = World(
    log: Log, synced: nat, checkpoint: nat, up: bool, mem: Mem, nextTxn: nat, pending: Option<LogRecord>,
    cuts: seq<seq<Write>>, shown: seq<Write>, segments: seq<Entries>,
    acked: set<Write>, failed: set<Write>, doubted: set<Write>)

  /** `CommitUnsynced` writes the commit record and fails to sync it; the engine goes on, unless a crash follows. */
  datatype Event =
    | AppendFails
    | AppendWrite(rowId: u64, op: Op, payload: seq<byte>)
    | CommitWrite
    | CommitUnsynced
    | Crash(kept: nat)
    | Recover
    | Flush(stage: nat)

  function Joined(cuts: seq<seq<Write>>): seq<Write> {
    if cuts == [] then [] else Joined(cuts[..|cuts| - 1]) + cuts[|cuts| - 1]
  }

  /** Every write the running engine shows, in order. */
  function History(w: World): seq<Write> {
    Joined(w.cuts) + w.shown
  }

  /** What a recovery from the log as it stands would replay. */
  function Tail(utf8: Utf8, w: World): seq<Write> {
    CommittedWrites(utf8, w.log, w.checkpoint)
  }

  /** What a recovery would replay whatever a crash loses. */
  function Durable(utf8: Utf8, w: World): seq<Write>
    requires w.synced <= |w.log.records|
  {
    CommittedWrites(utf8, w.log.(records := w.log.records[..w.synced]), w.checkpoint)
  }

  function Started(base: nat): World {
    World(Log(base, []), 0, 0, true, EmptyMem(), 1, None, [], [], [], {}, {}, {})
  }

  /** Everything in the log is durable. */
  predicate Settled(w: World) {
    w.synced == |w.log.records|
  }

  /** A flush would write a segment. */
  predicate Flushes(w: World) {
    w.up && w.shown != []
  }

  // ---- steps ----

  function NewRecord(w: World, op: Op, payload: seq<byte>): LogRecord {
    LogRecord(NextLsn(w.log), w.nextTxn, TypeOf(op), payload)
  }

  /** The data record could not be written. */
  function AppendFailsStep(w: World): World {
    if w.up then w.(nextTxn := w.nextTxn + 1, pending := None) else w
  }

  function AppendStep(utf8: Utf8, w: World, rowId: u64, op: Op, payload: seq<byte>): World {
    if w.up && DecodedOp(utf8, TypeOf(op), payload) == Some((rowId, op)) then
      var e := AfterAppend(EngineView(w.log, w.mem, w.nextTxn), TypeOf(op), payload);
      w.(log := e.log, nextTxn := e.nextTxn, pending := Some(NewRecord(w, op, payload)))
    else w
  }

  predicate CanCommit(utf8: Utf8, w: World) {
    w.up && w.pending.Some? && WriteOf(utf8, w.pending.value).Some?
  }

  /** The commit record is written and synced, then the memtable shows the write and the caller is told so. */
  function CommitStep(utf8: Utf8, w: World): World {
    if CanCommit(utf8, w) then
      var r, x := w.pending.value, WriteOf(utf8, w.pending.value).value;
      var e := AfterCommit(EngineView(w.log, w.mem, w.nextTxn), r.txn, x);
      w.(log := e.log, mem := e.mem, synced := |e.log.records|, shown := w.shown + [x], acked := w.acked + {x}, pending := None)
    else w
  }

  /** The commit record is written but not synced: the caller is told that the write failed, and the memtable does not show it. */
  function CommitUnsyncedStep(utf8: Utf8, w: World): World {
    if CanCommit(utf8, w) then
      var r, x := w.pending.value, WriteOf(utf8, w.pending.value).value;
      w.(log := Append(w.log, r.txn, Commit, []), failed := w.failed + {x}, doubted := w.doubted + {x}, pending := None)
    else w
  }

  /** Some of the records not known durable are lost. */
  function CrashStep(w: World, kept: nat): World {
    if w.synced <= kept <= |w.log.records| then
      w.(log := w.log.(records := w.log.records[..kept]), synced := kept, up := false, pending := None)
    else w
  }

  function RecoverStep(utf8: Utf8, w: World): World {
    if w.up then w
    else
      var e := Recovered(utf8, w.log, w.checkpoint);
      w.(up := true, mem := e.mem, nextTxn := e.nextTxn, synced := |w.log.records|, shown := Tail(utf8, w), failed := {})
  }

  /** The segment is written and named in the manifest with its checkpoint (stage 0); the log is truncated (1); the memtable is reset (2). */
  function FlushStep(w: World, stage: nat): World {
    if !Flushes(w) then w
    else
      var next := NextLsn(w.log);
      var flushed := w.(checkpoint := if next > 0 then next - 1 else 0, cuts := w.cuts + [w.shown], shown := [],
                        segments := w.segments + [Visible(w.mem)], pending := None, failed := {});
      if stage == 0 then flushed.(up := false)
      else
        var truncated := flushed.(log := Log(next, []), synced := 0);
        if stage == 1 then truncated.(up := false) else truncated.(mem := EmptyMem())
  }

  function Next(utf8: Utf8, w: World, e: Event): World {
    match e
    case AppendFails => AppendFailsStep(w)
    case AppendWrite(rowId, op, payload) => AppendStep(utf8, w, rowId, op, payload)
    case CommitWrite => CommitStep(utf8, w)
    case CommitUnsynced => CommitUnsyncedStep(utf8, w)
    case Crash(kept) => CrashStep(w, kept)
    case Recover => RecoverStep(utf8, w)
    case Flush(stage) => FlushStep(w, stage)
  }

  function Run(utf8: Utf8, w: World, events: seq<Event>): World {
    if events == [] then w else Next(utf8, Run(utf8, w, events[..|events| - 1]), events[|events| - 1])
  }

  /** No segment is flushed while a record is not durable. */
  predicate FlushesSettled(utf8: Utf8, w: World, events: seq<Event>) {
    forall k :: 0 <= k < |events| && events[k].Flush? ==>
      var v := Run(utf8, w, events[..k]); Flushes(v) ==> Settled(v)
  }

  // ---- replaying ----

  /** LSNs begin at the base and rise. */
  predicate LogOk(l: Log) {
    && (forall i :: 0 <= i < |l.records| ==> l.base <= l.records[i].lsn)
    && forall i, j :: 0 <= i < j < |l.records| ==> l.records[i].lsn < l.records[j].lsn
  }

  predicate Rising(h: seq<Write>) {
    forall i, j :: 0 <= i < j < |h| ==> h[i].lsn < h[j].lsn
  }

  lemma ReplaySnoc(utf8: Utf8, records: seq<LogRecord>, r: LogRecord, committed: set<nat>, checkpoint: nat)
    ensures Replayed(utf8, records + [r], committed, checkpoint)
         == Replayed(utf8, records, committed, checkpoint)
            + (if r.lsn > checkpoint && r.txn in committed && WriteOf(utf8, r).Some? then [WriteOf(utf8, r).value] else [])
  {
    assert (records + [r])[..|records|] == records;
  }

  lemma {:induction false} ReplaySame(utf8: Utf8, records: seq<LogRecord>, a: set<nat>, b: set<nat>, checkpoint: nat)
    requires forall i :: 0 <= i < |records| && !records[i].rtype.Commit? ==> (records[i].txn in a <==> records[i].txn in b)
    ensures Replayed(utf8, records, a, checkpoint) == Replayed(utf8, records, b, checkpoint)
  {
    if records != [] {
      ReplaySame(utf8, records[..|records| - 1], a, b, checkpoint);
    }
  }

  /** Replayed writes rise, above the checkpoint and below the next LSN. */
  lemma {:induction false} ReplayRises(utf8: Utf8, l: Log, committed: set<nat>, checkpoint: nat)
    requires LogOk(l)
    ensures var h := Replayed(utf8, l.records, committed, checkpoint);
            Rising(h) && forall i :: 0 <= i < |h| ==> checkpoint < h[i].lsn < NextLsn(l)
    decreases |l.records|
  {
    if l.records != [] {
      var init := l.(records := l.records[..|l.records| - 1]);
      ReplayRises(utf8, init, committed, checkpoint);
    }
  }

  lemma {:induction false} ReplayNone(utf8: Utf8, records: seq<LogRecord>, committed: set<nat>, checkpoint: nat)
    requires forall i :: 0 <= i < |records| ==> records[i].lsn <= checkpoint
    ensures Replayed(utf8, records, committed, checkpoint) == []
  {
    if records != [] {
      ReplayNone(utf8, records[..|records| - 1], committed, checkpoint);
    }
  }

  lemma CommittedSnoc(records: seq<LogRecord>, r: LogRecord)
    ensures CommittedTxns(records + [r]) == CommittedTxns(records) + (if r.rtype.Commit? then {r.txn} else {})
  {
  }

  /** A record that replays as `x`. */
  predicate Replays(utf8: Utf8, r: LogRecord, committed: set<nat>, checkpoint: nat, x: Write) {
    r.lsn > checkpoint && r.txn in committed && WriteOf(utf8, r) == Some(x)
  }

  lemma {:induction false} ReplayedIff(utf8: Utf8, records: seq<LogRecord>, committed: set<nat>, checkpoint: nat, x: Write)
    ensures x in Replayed(utf8, records, committed, checkpoint) <==>
              exists k :: 0 <= k < |records| && Replays(utf8, records[k], committed, checkpoint, x)
  {
    hide WriteOf;
    if records != [] {
      var init, r := records[..|records| - 1], records[|records| - 1];
      ReplayedIff(utf8, init, committed, checkpoint, x);
      assert forall k :: 0 <= k < |init| ==> init[k] == records[k];
    }
  }

  /** A longer log replays no less. */
  lemma ReplayGrows(utf8: Utf8, l: Log, k: nat, checkpoint: nat)
    requires k <= |l.records|
    ensures forall x <- CommittedWrites(utf8, l.(records := l.records[..k]), checkpoint) :: x in CommittedWrites(utf8, l, checkpoint)
  {
    hide WriteOf, Replayed;
    var was, now := CommittedTxns(l.records[..k]), CommittedTxns(l.records);
    assert forall q :: 0 <= q < k ==> l.records[..k][q] == l.records[q];
    assert was <= now;
    forall x | x in Replayed(utf8, l.records[..k], was, checkpoint)
      ensures x in Replayed(utf8, l.records, now, checkpoint)
    {
      ReplayedIff(utf8, l.records[..k], was, checkpoint, x);
      ReplayedIff(utf8, l.records, now, checkpoint, x);
      var q :| 0 <= q < k && Replays(utf8, l.records[..k][q], was, checkpoint, x);
      assert Replays(utf8, l.records[q], now, checkpoint, x);
    }
  }

  // ---- the invariant ----

  /** The least LSN a recovery could hand out next. */
  function FloorLsn(w: World): nat
    requires w.synced <= |w.log.records|
  {
    if w.synced == 0 then w.log.base else w.log.records[w.synced - 1].lsn + 1
  }

  /** Rising LSNs, from above the checkpoint on whatever a crash loses. */
  ghost predicate LogInv(w: World) {
    LogOk(w.log) && w.synced <= |w.log.records| && w.checkpoint < FloorLsn(w)
  }

  /** The write under way: the last record, alone with its transaction id. */
  ghost predicate PendingInv(utf8: Utf8, w: World) {
    w.pending.Some? ==>
      var r, records := w.pending.value, w.log.records;
      && w.up && records != [] && records[|records| - 1] == r && w.synced < |records|
      && WriteOf(utf8, r).Some? && r.lsn > w.checkpoint
      && forall k :: 0 <= k < |records| - 1 ==> records[k].txn != r.txn
  }

  /** The running engine shows durable writes, all that would be replayed but those whose commit failed; its ids are new. */
  ghost predicate LiveInv(utf8: Utf8, w: World)
    requires w.synced <= |w.log.records|
  {
    w.up ==>
      && w.mem == MemOf(w.shown) && w.nextTxn > MaxTxn(w.log.records)
      && Rising(w.shown) && ShownBelow(w.shown, w.checkpoint, FloorLsn(w))
      && (forall x :: x in Tail(utf8, w) <==> x in w.shown || x in w.failed)
      && (forall x <- w.failed :: x !in w.shown)
  }

  predicate ShownBelow(h: seq<Write>, checkpoint: nat, floor: nat) {
    forall x <- h :: checkpoint < x.lsn < floor
  }

  ghost predicate SegmentsInv(w: World) {
    && |w.segments| == |w.cuts|
    && (forall i :: 0 <= i < |w.cuts| ==> w.segments[i] == Visible(MemOf(w.cuts[i])))
    && Rising(Joined(w.cuts)) && forall i :: 0 <= i < |Joined(w.cuts)| ==> Joined(w.cuts)[i].lsn <= w.checkpoint
  }

  /** Acknowledged writes are durable, and shown while the engine is up; nothing else is, but writes whose commit failed. */
  ghost predicate AckInv(utf8: Utf8, w: World)
    requires w.synced <= |w.log.records|
  {
    && Kept(w.acked, Joined(w.cuts), Durable(utf8, w))
    && (w.up ==> Kept(w.acked, Joined(w.cuts), w.shown))
    && OnlyOf(Joined(w.cuts), w.acked, w.doubted) && OnlyOf(Tail(utf8, w), w.acked, w.doubted)
    && w.failed <= w.doubted
  }

  predicate Kept(acked: set<Write>, flushed: seq<Write>, rest: seq<Write>) {
    forall x <- acked :: x in flushed || x in rest
  }

  predicate OnlyOf(h: seq<Write>, acked: set<Write>, doubted: set<Write>) {
    forall x <- h :: x in acked || x in doubted
  }

  ghost predicate Inv(utf8: Utf8, w: World) {
    LogInv(w) && PendingInv(utf8, w) && LiveInv(utf8, w) && SegmentsInv(w) && AckInv(utf8, w)
  }

  lemma StartInv(utf8: Utf8, base: nat)
    requires base >= 1
    ensures Inv(utf8, Started(base))
  {
  }

  /** New LSNs are above the checkpoint, and above every LSN in the log. */
  lemma NextAbove(w: World)
    requires LogInv(w)
    ensures w.checkpoint < FloorLsn(w) <= NextLsn(w.log)
    ensures w.log.base <= NextLsn(w.log) && forall i :: 0 <= i < |w.log.records| ==> w.log.records[i].lsn < NextLsn(w.log)
  {
  }

  lemma LogOkOf(w: World)
    requires LogInv(w)
    ensures LogOk(w.log) && w.synced <= |w.log.records|
  {
  }

  /** What a recovery would replay lies between the checkpoint and the next LSN, rising. */
  lemma TailRises(utf8: Utf8, w: World)
    requires LogOk(w.log)
    ensures Rising(Tail(utf8, w)) && ShownBelow(Tail(utf8, w), w.checkpoint, NextLsn(w.log))
  {
    hide Replayed;
    ReplayRises(utf8, w.log, CommittedTxns(w.log.records), w.checkpoint);
  }

  lemma DurableInTail(utf8: Utf8, w: World)
    requires w.synced <= |w.log.records|
    ensures forall x <- Durable(utf8, w) :: x in Tail(utf8, w)
  {
    ReplayGrows(utf8, w.log, w.synced, w.checkpoint);
  }

  lemma WholeDurable(utf8: Utf8, w: World)
    requires w.synced == |w.log.records|
    ensures Durable(utf8, w) == Tail(utf8, w)
  {
    assert w.log.records[..w.synced] == w.log.records;
  }

  lemma SegmentsSame(w: World, after: World)
    requires SegmentsInv(w) && after.cuts == w.cuts && after.segments == w.segments && after.checkpoint == w.checkpoint
    ensures SegmentsInv(after)
  {
  }

  lemma MaxSnoc(records: seq<LogRecord>, r: LogRecord)
    ensures MaxTxn(records + [r]) == Max(MaxTxn(records), r.txn)
  {
    assert (records + [r])[..|records|] == records;
  }

  lemma MaxHolds(records: seq<LogRecord>, r: LogRecord)
    requires r in records
    ensures r.txn <= MaxTxn(records)
  {
  }

  lemma WriteOfNew(utf8: Utf8, w: World, rowId: u64, op: Op, payload: seq<byte>)
    requires DecodedOp(utf8, TypeOf(op), payload) == Some((rowId, op))
    ensures WriteOf(utf8, NewRecord(w, op, payload)) == Some(Write(rowId, op, NextLsn(w.log)))
  {
  }

  /** One record more, not known durable: the log rises still. */
  lemma LogMore(w: World, after: World, r: LogRecord)
    requires LogInv(w) && after.log == w.log.(records := w.log.records + [r]) && r.lsn == NextLsn(w.log)
    requires after.checkpoint == w.checkpoint && (after.synced == w.synced || after.synced == |after.log.records|)
    ensures LogInv(after) && FloorLsn(w) <= FloorLsn(after)
    ensures after.synced == w.synced ==> FloorLsn(after) == FloorLsn(w)
  {
    NextAbove(w);
  }

  // ---- appends ----

  lemma AppendFailsKeeps(utf8: Utf8, w: World)
    requires Inv(utf8, w)
    ensures Inv(utf8, AppendFailsStep(w))
  {
    hide Replayed, SegmentsInv, LogInv, MemOf, MaxTxn, WriteOf, Joined;
    SegmentsSame(w, AppendFailsStep(w));
    assert LogInv(AppendFailsStep(w)) by { SameLog(w, AppendFailsStep(w)); }
  }

  lemma SameLog(w: World, after: World)
    requires LogInv(w) && after.log == w.log && after.synced == w.synced && after.checkpoint == w.checkpoint
    ensures LogInv(after)
  {
  }

  /** A record of a new transaction, not committed, changes nothing that is replayed. */
  lemma AppendTail(utf8: Utf8, w: World, after: World, r: LogRecord)
    requires after.log == w.log.(records := w.log.records + [r]) && after.checkpoint == w.checkpoint && after.synced == w.synced
    requires w.synced <= |w.log.records| && !r.rtype.Commit? && MaxTxn(w.log.records) < r.txn
    ensures Tail(utf8, after) == Tail(utf8, w) && Durable(utf8, after) == Durable(utf8, w)
  {
    hide Replayed, WriteOf;
    CommittedSnoc(w.log.records, r);
    assert CommittedTxns(after.log.records) == CommittedTxns(w.log.records);
    ReplaySnoc(utf8, w.log.records, r, CommittedTxns(w.log.records), w.checkpoint);
    assert after.log.records[..w.synced] == w.log.records[..w.synced];
  }

  lemma AppendPending(utf8: Utf8, w: World, after: World, r: LogRecord)
    requires LogInv(w) && w.up && after.up && after.log.records == w.log.records + [r] && after.pending == Some(r)
    requires r.lsn == NextLsn(w.log) && WriteOf(utf8, r).Some? && after.synced == w.synced && after.checkpoint == w.checkpoint
    requires MaxTxn(w.log.records) < r.txn
    ensures PendingInv(utf8, after)
  {
    hide WriteOf;
    NextAbove(w);
  }

  lemma AppendKeeps(utf8: Utf8, w: World, rowId: u64, op: Op, payload: seq<byte>)
    requires Inv(utf8, w)
    ensures Inv(utf8, AppendStep(utf8, w, rowId, op, payload))
  {
    hide WriteOf, DecodedOp, MemOf, SegmentsInv, LogInv, PendingInv, MaxTxn, Tail, Durable, FloorLsn, Joined;
    var after := AppendStep(utf8, w, rowId, op, payload);
    if after != w {
      var r := NewRecord(w, op, payload);
      WriteOfNew(utf8, w, rowId, op, payload);
      LogOkOf(w);
      LogMore(w, after, r);
      AppendTail(utf8, w, after, r);
      MaxSnoc(w.log.records, r);
      AppendPending(utf8, w, after, r);
      SegmentsSame(w, after);
    }
  }

  // ---- commits ----

  /** The write under way is not committed yet. */
  lemma PendingUncommitted(utf8: Utf8, w: World)
    requires PendingInv(utf8, w) && w.pending.Some?
    ensures w.pending.value.txn !in CommittedTxns(w.log.records)
  {
    var r, records := w.pending.value, w.log.records;
    forall q | q in records && q.rtype.Commit?
      ensures q.txn != r.txn
    {
      var k :| 0 <= k < |records| && records[k] == q;
      assert q != r;
    }
  }

  /** The commit record adds the pending write to what is replayed, and no other. */
  lemma CommitReplays(utf8: Utf8, records: seq<LogRecord>, r: LogRecord, c: LogRecord, checkpoint: nat)
    requires records != [] && records[|records| - 1] == r && WriteOf(utf8, r).Some? && r.lsn > checkpoint
    requires c.rtype.Commit? && c.txn == r.txn && r.txn !in CommittedTxns(records)
    requires forall k :: 0 <= k < |records| - 1 ==> records[k].txn != r.txn
    ensures Replayed(utf8, records + [c], CommittedTxns(records + [c]), checkpoint)
         == Replayed(utf8, records, CommittedTxns(records), checkpoint) + [WriteOf(utf8, r).value]
  {
    hide WriteOf, Replayed, CommittedTxns;
    var was, now, init := CommittedTxns(records), CommittedTxns(records + [c]), records[..|records| - 1];
    CommittedSnoc(records, c);
    assert records == init + [r];
    ReplaySnoc(utf8, records, c, now, checkpoint);
    CommitIsNoWrite(utf8, c);
    ReplaySnoc(utf8, init, r, now, checkpoint);
    ReplaySnoc(utf8, init, r, was, checkpoint);
    ReplaySame(utf8, init, was, now, checkpoint);
  }

  lemma CommitIsNoWrite(utf8: Utf8, c: LogRecord)
    requires c.rtype.Commit?
    ensures WriteOf(utf8, c).None?
  {
  }

  /** A commit record, synced or not, adds the write under way to what is replayed, as the newest. */
  lemma CommitTail(utf8: Utf8, w: World, after: World)
    requires LogInv(w) && PendingInv(utf8, w) && CanCommit(utf8, w) && LogOk(after.log)
    requires after.log == Append(w.log, w.pending.value.txn, Commit, []) && after.checkpoint == w.checkpoint
    ensures var x := WriteOf(utf8, w.pending.value).value;
            && Tail(utf8, after) == Tail(utf8, w) + [x] && x !in Tail(utf8, w)
            && forall y <- Tail(utf8, w) :: y.lsn < x.lsn
  {
    hide WriteOf, Replayed, CommittedTxns, LogOk;
    var r, c := w.pending.value, LogRecord(NextLsn(w.log), w.pending.value.txn, Commit, []);
    PendingUncommitted(utf8, w);
    CommitReplays(utf8, w.log.records, r, c, w.checkpoint);
    TailRises(utf8, after);
    var x, t := WriteOf(utf8, r).value, Tail(utf8, w);
    forall y | y in t
      ensures y.lsn < x.lsn
    {
      var k :| 0 <= k < |t| && t[k] == y;
      assert (t + [x])[k] == y && (t + [x])[|t|] == x;
    }
  }

  /** The log with a commit record for the write under way. */
  lemma CommitLog(utf8: Utf8, w: World, after: World)
    requires LogInv(w) && PendingInv(utf8, w) && w.pending.Some?
    requires after.log == Append(w.log, w.pending.value.txn, Commit, []) && after.checkpoint == w.checkpoint
    requires after.synced == w.synced || after.synced == |after.log.records|
    ensures LogInv(after) && FloorLsn(w) <= FloorLsn(after) && MaxTxn(after.log.records) == MaxTxn(w.log.records)
    ensures after.synced == w.synced ==> FloorLsn(after) == FloorLsn(w)
    ensures after.synced != w.synced ==> FloorLsn(after) == NextLsn(after.log)
  {
    hide WriteOf, MaxTxn, LogOk;
    var c := LogRecord(NextLsn(w.log), w.pending.value.txn, Commit, []);
    LogMore(w, after, c) by { hide PendingInv; }
    MaxSnoc(w.log.records, c);
    MaxHolds(w.log.records, w.pending.value);
  }

  lemma CommitLive(utf8: Utf8, w: World)
    requires LogInv(w) && PendingInv(utf8, w) && LiveInv(utf8, w) && CanCommit(utf8, w)
    requires LogInv(CommitStep(utf8, w))
    ensures LiveInv(utf8, CommitStep(utf8, w))
  {
    hide WriteOf, MemOf, MaxTxn, Tail, LogOk;
    var after := CommitStep(utf8, w);
    CommitLog(utf8, w, after);
    CommitTail(utf8, w, after);
    var x := WriteOf(utf8, w.pending.value).value;
    TailRises(utf8, after);
    assert after.shown == w.shown + [x] && x in Tail(utf8, after);
    MemSnoc(w.shown, x);
    RisingSnoc(w.shown, x);
  }

  lemma MemSnoc(h: seq<Write>, x: Write)
    ensures MemOf(h + [x]) == Applied(MemOf(h), x)
  {
    assert (h + [x])[..|h|] == h;
  }

  lemma RisingSnoc(h: seq<Write>, x: Write)
    requires Rising(h) && forall y <- h :: y.lsn < x.lsn
    ensures Rising(h + [x])
  {
  }

  lemma CommitKeeps(utf8: Utf8, w: World)
    requires Inv(utf8, w)
    ensures Inv(utf8, CommitStep(utf8, w))
  {
    hide WriteOf, SegmentsInv, LogInv, LiveInv, MaxTxn, MemOf, Tail, Durable, Joined, FloorLsn;
    if CanCommit(utf8, w) {
      var after := CommitStep(utf8, w);
      CommitLog(utf8, w, after);
      CommitLive(utf8, w);
      LogOkOf(after);
      CommitTail(utf8, w, after);
      DurableInTail(utf8, w);
      WholeDurable(utf8, after);
      SegmentsSame(w, after);
    }
  }

  lemma UnsyncedLive(utf8: Utf8, w: World)
    requires LogInv(w) && PendingInv(utf8, w) && LiveInv(utf8, w) && CanCommit(utf8, w)
    requires LogInv(CommitUnsyncedStep(utf8, w))
    ensures LiveInv(utf8, CommitUnsyncedStep(utf8, w))
  {
    hide WriteOf, MemOf, MaxTxn, Tail, LogOk, FloorLsn;
    var after := CommitUnsyncedStep(utf8, w);
    CommitLog(utf8, w, after);
    CommitTail(utf8, w, after);
  }

  lemma CommitUnsyncedKeeps(utf8: Utf8, w: World)
    requires Inv(utf8, w)
    ensures Inv(utf8, CommitUnsyncedStep(utf8, w))
  {
    hide WriteOf, SegmentsInv, LogInv, LiveInv, MaxTxn, MemOf, Tail, Durable, Joined, FloorLsn;
    if CanCommit(utf8, w) {
      var after := CommitUnsyncedStep(utf8, w);
      CommitLog(utf8, w, after);
      UnsyncedLive(utf8, w);
      LogOkOf(after);
      CommitTail(utf8, w, after);
      SameDurable(utf8, w, after);
      SegmentsSame(w, after);
    }
  }

  lemma SameDurable(utf8: Utf8, w: World, after: World)
    requires w.synced == after.synced <= |w.log.records| <= |after.log.records| && after.checkpoint == w.checkpoint
    requires after.log.base == w.log.base && after.log.records[..|w.log.records|] == w.log.records
    ensures Durable(utf8, after) == Durable(utf8, w)
  {
    assert after.log.records[..w.synced] == w.log.records[..w.synced];
  }

  // ---- crashes and recoveries ----

  lemma CrashKeeps(utf8: Utf8, w: World, kept: nat)
    requires Inv(utf8, w)
    ensures Inv(utf8, CrashStep(w, kept))
  {
    hide WriteOf, SegmentsInv, LiveInv, PendingInv, Replayed, CommittedTxns, Joined;
    if w.synced <= kept <= |w.log.records| {
      var after := CrashStep(w, kept);
      SegmentsSame(w, after);
      assert kept > w.synced > 0 ==> w.log.records[w.synced - 1].lsn < w.log.records[kept - 1].lsn;
      ReplayGrows(utf8, w.log, kept, w.checkpoint);
      ReplayGrows(utf8, after.log, w.synced, w.checkpoint);
      assert after.log.records[..w.synced] == w.log.records[..w.synced];
      WholeDurable(utf8, after);
      assert PendingInv(utf8, after) && LiveInv(utf8, after) by { DownLive(utf8, after); }
    }
  }

  lemma DownLive(utf8: Utf8, w: World)
    requires !w.up && w.pending.None? && w.synced <= |w.log.records|
    ensures PendingInv(utf8, w) && LiveInv(utf8, w)
  {
  }

  lemma RecoverKeeps(utf8: Utf8, w: World)
    requires Inv(utf8, w)
    ensures Inv(utf8, RecoverStep(utf8, w))
  {
    hide WriteOf, SegmentsInv, Replayed, CommittedTxns, MemOf, MaxTxn, Joined;
    if !w.up {
      var after := RecoverStep(utf8, w);
      SegmentsSame(w, after);
      NextAbove(w);
      TailRises(utf8, w);
      DurableInTail(utf8, w);
      WholeDurable(utf8, after);
    }
  }

  // ---- flushes ----

  lemma EmptyReplays(utf8: Utf8, checkpoint: nat)
    ensures Replayed(utf8, [], CommittedTxns([]), checkpoint) == [] && MemOf([]) == EmptyMem() && MaxTxn([]) == 0
  {
  }

  /** Once everything in the log is durable, the checkpoint covers it all. */
  lemma FlushTail(utf8: Utf8, w: World, stage: nat)
    requires LogInv(w) && Settled(w) && Flushes(w)
    ensures var after := FlushStep(w, stage);
            && LogInv(after) && Tail(utf8, after) == [] && Durable(utf8, after) == []
            && w.checkpoint <= after.checkpoint && after.checkpoint + 1 == FloorLsn(w)
  {
    hide Replayed, MemOf, Visible;
    var after := FlushStep(w, stage);
    NextAbove(w);
    EmptyReplays(utf8, after.checkpoint);
    if stage == 0 {
      ReplayNone(utf8, w.log.records, CommittedTxns(w.log.records), after.checkpoint);
    }
    WholeDurable(utf8, after);
  }

  lemma JoinedSnoc(cuts: seq<seq<Write>>, h: seq<Write>)
    ensures Joined(cuts + [h]) == Joined(cuts) + h
  {
    assert (cuts + [h])[..|cuts|] == cuts;
  }

  lemma FlushSegments(w: World, after: World)
    requires SegmentsInv(w) && w.mem == MemOf(w.shown) && Rising(w.shown) && w.checkpoint <= after.checkpoint
    requires ShownBelow(w.shown, w.checkpoint, after.checkpoint + 1)
    requires after.cuts == w.cuts + [w.shown] && after.segments == w.segments + [Visible(w.mem)]
    ensures SegmentsInv(after)
  {
    hide Visible, MemOf, Joined;
    JoinedSnoc(w.cuts, w.shown);
    assert forall i :: 0 <= i < |w.shown| ==> w.shown[i] in w.shown;
  }

  lemma FlushAcks(utf8: Utf8, w: World, after: World)
    requires LogInv(w) && LiveInv(utf8, w) && AckInv(utf8, w) && w.up && LogInv(after)
    requires Tail(utf8, after) == [] && after.shown == [] && after.failed == {} && after.acked == w.acked && after.doubted == w.doubted
    requires after.cuts == w.cuts + [w.shown]
    ensures AckInv(utf8, after)
  {
    hide Tail, Durable, Joined, MemOf, MaxTxn, LogOk, FloorLsn;
    JoinedSnoc(w.cuts, w.shown);
  }

  lemma FlushKeeps(utf8: Utf8, w: World, stage: nat)
    requires Inv(utf8, w) && (Flushes(w) ==> Settled(w))
    ensures Inv(utf8, FlushStep(w, stage))
  {
    hide Replayed, SegmentsInv, MemOf, Visible, Tail, Durable, LogInv, AckInv, MaxTxn;
    if Flushes(w) {
      var after := FlushStep(w, stage);
      FlushTail(utf8, w, stage);
      assert w.synced <= |w.log.records| && after.synced <= |after.log.records|;
      FlushSegments(w, after);
      FlushAcks(utf8, w, after);
      EmptyReplays(utf8, after.checkpoint);
    }
  }

  // ---- every event ----

  lemma NextKeeps(utf8: Utf8, w: World, e: Event)
    requires Inv(utf8, w) && (e.Flush? && Flushes(w) ==> Settled(w))
    ensures Inv(utf8, Next(utf8, w, e))
  {
    hide Inv, Flushes, Settled;
    match e
    case AppendFails => AppendFailsKeeps(utf8, w);
    case AppendWrite(rowId, op, payload) => AppendKeeps(utf8, w, rowId, op, payload);
    case CommitWrite => CommitKeeps(utf8, w);
    case CommitUnsynced => CommitUnsyncedKeeps(utf8, w);
    case Crash(kept) => CrashKeeps(utf8, w, kept);
    case Recover => RecoverKeeps(utf8, w);
    case Flush(stage) => FlushKeeps(utf8, w, stage);
  }

  lemma SettledInit(utf8: Utf8, w: World, events: seq<Event>)
    requires FlushesSettled(utf8, w, events) && events != []
    ensures FlushesSettled(utf8, w, events[..|events| - 1])
    ensures var v, e := Run(utf8, w, events[..|events| - 1]), events[|events| - 1]; e.Flush? && Flushes(v) ==> Settled(v)
  {
    hide Run, Settled, Flushes;
    var init := events[..|events| - 1];
    forall k | 0 <= k < |init|
      ensures init[..k] == events[..k] && events[k] == init[k]
    {
    }
  }

  lemma {:induction false} RunKeeps(utf8: Utf8, w: World, events: seq<Event>)
    requires Inv(utf8, w) && FlushesSettled(utf8, w, events)
    ensures Inv(utf8, Run(utf8, w, events))
  {
    hide Inv, Settled, Flushes, Next, FlushesSettled;
    if events != [] {
      SettledInit(utf8, w, events);
      RunKeeps(utf8, w, events[..|events| - 1]);
      NextKeeps(utf8, Run(utf8, w, events[..|events| - 1]), events[|events| - 1]);
    }
  }
}
