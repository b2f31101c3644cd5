/**
 What the engine's runs guarantee: what is shown, what survives, what never appears, and exactly when
 a flush is safe and when a restart changes what is shown.
 */
module EngineTheorems {
  import opened Wrappers
  import opened Numbers
  import opened Bytes
  import opened Cursors
  import opened RowCodec
  import opened Memtables
  import opened Engines
  import opened EngineRuns

  // ---- what is shown ----

  /** The sources of a read: every segment, then the memtable. */
  function Shown(w: World): Entries {
    ShownFrom(w.segments, Visible(w.mem))
  }

  function ShownFrom(segments: seq<Entries>, last: Entries): Entries {
    if segments == [] then last else Merged(segments[0], ShownFrom(segments[1..], last))
  }

  ghost function Tree(cuts: seq<seq<Write>>, tail: seq<Write>): MergeTree {
    if cuts == [] then Part(tail) else Both(Part(cuts[0]), Tree(cuts[1..], tail))
  }

  lemma {:induction false} TreeShows(cuts: seq<seq<Write>>, tail: seq<Write>, segments: seq<Entries>)
    requires |segments| == |cuts| && forall i :: 0 <= i < |cuts| ==> segments[i] == Visible(MemOf(cuts[i]))
    ensures Eval(Tree(cuts, tail)) == ShownFrom(segments, Visible(MemOf(tail)))
  {
    hide Visible, MemOf, Merged;
    if cuts != [] {
      TreeShows(cuts[1..], tail, segments[1..]);
    }
  }

  lemma {:induction false} JoinedFront(cuts: seq<seq<Write>>)
    requires cuts != []
    ensures Joined(cuts) == cuts[0] + Joined(cuts[1..])
  {
    if |cuts| > 1 {
      var init := cuts[..|cuts| - 1];
      JoinedFront(init);
      assert cuts[1..][..|cuts| - 2] == init[1..];
    }
  }

  lemma {:induction false} TreeWrites(cuts: seq<seq<Write>>, tail: seq<Write>)
    ensures WritesOf(Tree(cuts, tail)) == WriteSet(Joined(cuts) + tail)
  {
    if cuts != [] {
      TreeWrites(cuts[1..], tail);
      JoinedFront(cuts);
      assert Joined(cuts) + tail == cuts[0] + (Joined(cuts[1..]) + tail);
    }
  }

  lemma {:induction false} TreeInOrder(cuts: seq<seq<Write>>, tail: seq<Write>)
    requires var h := Joined(cuts) + tail; Rising(h) && RoomAbove(h)
    ensures PartsInOrder(Tree(cuts, tail))
  {
    hide Joined;
    var h := Joined(cuts) + tail;
    if cuts == [] {
      JoinedNone();
      assert h == tail;
      PartInOrder([], tail, []);
    } else {
      JoinedFront(cuts);
      var rest := Joined(cuts[1..]) + tail;
      assert h == cuts[0] + rest;
      assert [] + cuts[0] + rest == h && cuts[0] + rest + [] == h;
      PartInOrder([], cuts[0], rest);
      PartInOrder(cuts[0], rest, []);
      TreeInOrder(cuts[1..], tail);
    }
  }

  lemma JoinedNone()
    ensures Joined([]) == []
  {
  }

  lemma PartInOrder(a: seq<Write>, b: seq<Write>, c: seq<Write>)
    requires Rising(a + b + c) && RoomAbove(a + b + c)
    ensures InOrder(b) && Rising(b) && RoomAbove(b)
  {
    var h := a + b + c;
    assert forall i :: 0 <= i < |b| ==> b[i] == h[|a| + i];
  }

  lemma HistoryRises(utf8: Utf8, w: World)
    requires Inv(utf8, w) && w.up
    ensures Rising(History(w))
  {
    hide Replayed, Joined;
    var h, n := History(w), |Joined(w.cuts)|;
    forall i | 0 <= i < |h|
      ensures h[i] == if i < n then Joined(w.cuts)[i] else w.shown[i - n]
      ensures i >= n ==> h[i].lsn > w.checkpoint
    {
      if i >= n {
        assert w.shown[i - n] in w.shown;
      }
    }
  }

  /** The run from a new log. */
  function After(utf8: Utf8, base: nat, events: seq<Event>): World {
    Run(utf8, Started(base), events)
  }

  lemma AfterInv(utf8: Utf8, base: nat, events: seq<Event>)
    requires base >= 1 && FlushesSettled(utf8, Started(base), events)
    ensures Inv(utf8, After(utf8, base, events))
  {
    hide Run, Inv, FlushesSettled;
    StartInv(utf8, base);
    RunKeeps(utf8, Started(base), events);
  }

  /**
   Over any run of writes, failed appends and commits, crashes, recoveries and flushes, what the segments
   and the memtable show together is a history in LSN order that holds every acknowledged write, and
   besides them only writes whose commit failed before the last restart.
   */
  lemma ShowsCommitted(utf8: Utf8, base: nat, events: seq<Event>)
    requires base >= 1 && FlushesSettled(utf8, Started(base), events)
    requires After(utf8, base, events).up
    ensures var w := After(utf8, base, events);
            && Rising(History(w)) && (RoomAbove(History(w)) ==> Shown(w) == Visible(MemOf(History(w))))
            && (forall x <- w.acked :: x in History(w))
            && (forall x <- History(w) :: x in w.acked || (x in w.doubted && x !in w.failed))
  {
    hide Visible, MemOf, Run, FlushesSettled, Joined;
    AfterInv(utf8, base, events);
    var w := After(utf8, base, events);
    HistoryRises(utf8, w);
    NotYet(utf8, w);
    if RoomAbove(History(w)) {
      TreeShows(w.cuts, w.shown, w.segments);
      TreeWrites(w.cuts, w.shown);
      TreeInOrder(w.cuts, w.shown);
      CutAndMerge(History(w), Tree(w.cuts, w.shown));
    }
  }

  /** A write whose commit failed is not shown until the next restart. */
  lemma NotYet(utf8: Utf8, w: World)
    requires Inv(utf8, w) && w.up
    ensures forall x <- History(w) :: x !in w.failed && (x in w.acked || x in w.doubted)
  {
    hide Joined, MemOf, Visible;
    LogOkOf(w);
    TailRises(utf8, w);
    forall x | x in Joined(w.cuts)
      ensures x !in w.failed
    {
      var i :| 0 <= i < |Joined(w.cuts)| && Joined(w.cuts)[i] == x;
      assert x.lsn <= w.checkpoint;
    }
  }

  /** A row reads as the last write of that history left it. */
  lemma ReadsLastCommitted(utf8: Utf8, base: nat, events: seq<Event>, id: nat)
    requires base >= 1 && FlushesSettled(utf8, Started(base), events)
    requires var w := After(utf8, base, events); w.up && RoomAbove(History(w))
    ensures var w := After(utf8, base, events);
            var last := LastOf(History(w), id);
            && (id in Shown(w) <==> last.Some?)
            && (last.Some? ==> Shown(w)[id] == Stamped(last.value.lsn, RowOf(last.value.op)))
  {
    hide Visible, MemOf, Run, FlushesSettled;
    ShowsCommitted(utf8, base, events);
    VisibleIs(History(After(utf8, base, events)), id);
  }

  lemma VisibleIs(h: seq<Write>, id: nat)
    requires InOrder(h) && RoomAbove(h)
    ensures var last := LastOf(h, id);
            && (id in Visible(MemOf(h)) <==> last.Some?)
            && (last.Some? ==> Visible(MemOf(h))[id] == Stamped(last.value.lsn, RowOf(last.value.op)))
  {
    VisibleAt(h, id);
    LatestSnapshot(h, id);
  }

  // ---- what a restart changes ----

  /** The LSN of one of the versions. */
  predicate Stands(vs: seq<Version>, lsn: nat) {
    exists k :: 0 <= k < |vs| && vs[k].xmin == lsn
  }

  predicate WrittenAt(h: seq<Write>, id: nat, lsn: nat) {
    exists k :: 0 <= k < |h| && h[k].rowId == id && h[k].lsn == lsn
  }

  lemma ClosedStands(vs: seq<Version>, at: nat, v: Version, lsn: nat)
    ensures Stands(Closed(vs, at) + [v], lsn) <==> Stands(vs, lsn) || v.xmin == lsn
  {
    var c := Closed(vs, at) + [v];
    assert c[|vs|] == v;
    forall k | 0 <= k < |vs|
      ensures c[k].xmin == vs[k].xmin
    {
    }
  }

  /** A row's versions are its writes. */
  lemma {:induction false} VersionsAre(h: seq<Write>, id: nat, lsn: nat)
    ensures Stands(Chain(MemOf(h), id), lsn) <==> WrittenAt(h, id, lsn)
  {
    hide Closed;
    if h != [] {
      var init, x := h[..|h| - 1], h[|h| - 1];
      VersionsAre(init, id, lsn);
      assert forall k :: 0 <= k < |init| ==> h[k] == init[k];
      ClosedStands(Chain(MemOf(init), x.rowId), x.lsn, Version(x.lsn, INF, RowOf(x.op)), lsn);
    }
  }

  /** Histories that rise and hold the same writes are the same. */
  lemma {:induction false} RisingSame(a: seq<Write>, b: seq<Write>)
    requires Rising(a) && Rising(b) && forall x :: x in a <==> x in b
    ensures a == b
  {
    assert |a| > 0 ==> a[0] in a;
    assert |b| > 0 ==> b[0] in b;
    if a != [] && b != [] {
      var x, y := a[|a| - 1], b[|b| - 1];
      assert x in b && y in a;
      var i :| 0 <= i < |b| && b[i] == x;
      var j :| 0 <= j < |a| && a[j] == y;
      assert x == y;
      InitMembers(a);
      InitMembers(b);
      var p, q := a[..|a| - 1], b[..|b| - 1];
      forall z | z in p
        ensures z in q
      {
        assert z in a && z != y && z in b;
      }
      forall z | z in q
        ensures z in p
      {
        assert z in b && z != x && z in a;
      }
      RisingSame(p, q);
    }
  }

  lemma InitMembers(a: seq<Write>)
    requires Rising(a) && a != []
    ensures forall z :: z in a[..|a| - 1] <==> z in a && z != a[|a| - 1]
  {
    forall z | z in a && z != a[|a| - 1]
      ensures z in a[..|a| - 1]
    {
      var i :| 0 <= i < |a| && a[i] == z;
      assert a[..|a| - 1][i] == z;
    }
  }

  /**
   A restart that loses nothing of the log leaves the memtable as it was if and only if no commit has
   failed since the last start or flush.
   */
  lemma RestartAgrees(utf8: Utf8, base: nat, events: seq<Event>)
    requires base >= 1 && FlushesSettled(utf8, Started(base), events) && After(utf8, base, events).up
    ensures var w := After(utf8, base, events);
            RecoverStep(utf8, CrashStep(w, |w.log.records|)).mem == w.mem <==> w.failed == {}
  {
    hide Run, FlushesSettled, Inv, MemOf;
    AfterInv(utf8, base, events);
    RestartAgreesHere(utf8, After(utf8, base, events));
  }

  lemma RestartAgreesHere(utf8: Utf8, w: World)
    requires Inv(utf8, w) && w.up
    ensures RecoverStep(utf8, CrashStep(w, |w.log.records|)).mem == w.mem <==> w.failed == {}
  {
    hide Replayed, MemOf, Visible, Joined, MaxTxn, FloorLsn;
    assert w.log.records[..|w.log.records|] == w.log.records;
    assert RecoverStep(utf8, CrashStep(w, |w.log.records|)).mem == MemOf(Tail(utf8, w));
    LogOkOf(w);
    TailRises(utf8, w);
    if w.failed == {} {
      RisingSame(Tail(utf8, w), w.shown);
    } else {
      var x :| x in w.failed;
      MissingVersion(Tail(utf8, w), w.shown, x);
    }
  }

  lemma MissingVersion(t: seq<Write>, h: seq<Write>, x: Write)
    requires Rising(t) && x in t && x !in h && forall y <- h :: y in t
    ensures MemOf(t) != MemOf(h)
  {
    hide MemOf;
    VersionsAre(t, x.rowId, x.lsn);
    VersionsAre(h, x.rowId, x.lsn);
    var k :| 0 <= k < |t| && t[k] == x;
    forall i | 0 <= i < |h|
      ensures h[i].lsn != x.lsn
    {
      assert h[i] in h;
      var j :| 0 <= j < |t| && t[j] == h[i];
    }
  }

  /** A write whose commit cannot be synced, a good write, and a restart. */
  function Resurfacing(a: Event, b: Event): seq<Event> {
    [a, CommitUnsynced, b, CommitWrite, Crash(4), Recover]
  }

  lemma RunSnoc(utf8: Utf8, w: World, events: seq<Event>, e: Event)
    ensures Run(utf8, w, events + [e]) == Next(utf8, Run(utf8, w, events), e)
  {
    hide Next;
    assert (events + [e])[..|events|] == events;
  }

  predicate Decodes(utf8: Utf8, rowId: u64, op: Op, payload: seq<byte>) {
    DecodedOp(utf8, TypeOf(op), payload) == Some((rowId, op))
  }

  /** An append to a running engine: the record is under way, and nothing else changes. */
  lemma Appended(utf8: Utf8, w: World, rowId: u64, op: Op, payload: seq<byte>)
    requires Inv(utf8, w) && w.up && Decodes(utf8, rowId, op, payload)
    ensures var after := AppendStep(utf8, w, rowId, op, payload);
            && Inv(utf8, after) && CanCommit(utf8, after) && Tail(utf8, after) == Tail(utf8, w)
            && WriteOf(utf8, after.pending.value) == Some(Write(rowId, op, NextLsn(w.log)))
            && after == w.(log := after.log, nextTxn := w.nextTxn + 1, pending := after.pending)
            && |after.log.records| == |w.log.records| + 1 && NextLsn(after.log) == NextLsn(w.log) + 1
  {
    hide WriteOf, DecodedOp, MemOf, SegmentsInv, AckInv, PendingInv, MaxTxn, Tail, Durable, FloorLsn, Joined;
    AppendKeeps(utf8, w, rowId, op, payload);
    WriteOfNew(utf8, w, rowId, op, payload);
    AppendTail(utf8, w, AppendStep(utf8, w, rowId, op, payload), NewRecord(w, op, payload));
  }

  /** A commit, synced or not, of the write under way. */
  lemma Committed(utf8: Utf8, w: World)
    requires Inv(utf8, w) && CanCommit(utf8, w)
    ensures var x, a, b := WriteOf(utf8, w.pending.value).value, CommitStep(utf8, w), CommitUnsyncedStep(utf8, w);
            && Inv(utf8, a) && Inv(utf8, b) && Tail(utf8, a) == Tail(utf8, b) == Tail(utf8, w) + [x]
            && a.log == b.log && |a.log.records| == |w.log.records| + 1 && NextLsn(a.log) == NextLsn(w.log) + 1
            && a == w.(log := a.log, mem := a.mem, synced := |a.log.records|, shown := w.shown + [x], acked := w.acked + {x}, pending := None)
            && b == w.(log := b.log, failed := w.failed + {x}, doubted := w.doubted + {x}, pending := None)
  {
    hide WriteOf, MemOf, LiveInv, SegmentsInv, AckInv, PendingInv, MaxTxn, Tail, Durable, FloorLsn, Joined;
    CommitKeeps(utf8, w);
    CommitUnsyncedKeeps(utf8, w);
    CommitTail(utf8, w, CommitStep(utf8, w));
    CommitTail(utf8, w, CommitUnsyncedStep(utf8, w));
  }

  lemma FourSteps(utf8: Utf8, w: World, a: Event, b: Event, c: Event, d: Event)
    ensures Run(utf8, w, [a, b, c, d]) == Next(utf8, Next(utf8, Next(utf8, Next(utf8, w, a), b), c), d)
  {
    hide Next;
    RunSnoc(utf8, w, [], a);
    RunSnoc(utf8, w, [a], b);
    RunSnoc(utf8, w, [a, b], c);
    RunSnoc(utf8, w, [a, b, c], d);
    assert [] + [a] == [a] && [a] + [b] == [a, b] && [a, b] + [c] == [a, b, c] && [a, b, c] + [d] == [a, b, c, d];
  }

  /** A restart that loses nothing. */
  lemma Restarted(utf8: Utf8, w: World)
    requires w.synced <= |w.log.records|
    ensures var after := RecoverStep(utf8, CrashStep(w, |w.log.records|));
            && after.log == w.log && after.up && after.cuts == w.cuts && after.acked == w.acked && after.doubted == w.doubted
            && after.shown == Tail(utf8, w) && after.mem == MemOf(Tail(utf8, w)) && after.failed == {}
  {
    hide Replayed;
    assert w.log.records[..|w.log.records|] == w.log.records;
  }

  /**
   A write whose caller was told it failed, and which the running engine does not show, is there after
   the next restart, once a later commit has synced the log.
   */
  lemma FailedResurfaces(utf8: Utf8, base: nat, id: u64, op: Op, payload: seq<byte>, id2: u64, op2: Op, payload2: seq<byte>)
    requires base >= 1 && Decodes(utf8, id, op, payload) && Decodes(utf8, id2, op2, payload2)
    ensures var events := Resurfacing(AppendWrite(id, op, payload), AppendWrite(id2, op2, payload2));
            var before, after := After(utf8, base, events[..4]), After(utf8, base, events);
            var x, y := Write(id, op, base), Write(id2, op2, base + 2);
            && before.up && before.failed == {x} && before.acked == {y} && History(before) == [y]
            && after.up && after.acked == {y} && History(after) == [x, y]
  {
    hide Inv, CanCommit, AppendStep, CommitStep, CommitUnsyncedStep, CrashStep, RecoverStep, WriteOf, Decodes, Run, Tail, NextLsn, MemOf;
    var a, b := AppendWrite(id, op, payload), AppendWrite(id2, op2, payload2);
    var events, w0 := Resurfacing(a, b), Started(base);
    StartTail(utf8, base);
    Appended(utf8, w0, id, op, payload);
    var w1 := AppendStep(utf8, w0, id, op, payload);
    Committed(utf8, w1);
    var w2 := CommitUnsyncedStep(utf8, w1);
    Appended(utf8, w2, id2, op2, payload2);
    var w3 := AppendStep(utf8, w2, id2, op2, payload2);
    Committed(utf8, w3);
    var w4 := CommitStep(utf8, w3);
    Restarted(utf8, w4);
    FourSteps(utf8, w0, a, CommitUnsynced, b, CommitWrite);
    assert events[..4] == [a, CommitUnsynced, b, CommitWrite] && events[..4] + [Crash(4)] == events[..5] && events[..5] + [Recover] == events;
    RunSnoc(utf8, w0, events[..4], Crash(4));
    RunSnoc(utf8, w0, events[..5], Recover);
    NoCuts(w4);
    NoCuts(RecoverStep(utf8, CrashStep(w4, 4)));
  }

  lemma StartTail(utf8: Utf8, base: nat)
    requires base >= 1
    ensures Inv(utf8, Started(base)) && Tail(utf8, Started(base)) == [] && NextLsn(Started(base).log) == base
  {
    StartInv(utf8, base);
  }

  lemma NoCuts(w: World)
    requires w.cuts == []
    ensures History(w) == w.shown
  {
    JoinedNone();
  }

  // ---- what is never shown ----

  predicate NoneAt(h: seq<Write>, lsn: nat) {
    forall x <- h :: x.lsn != lsn
  }

  /** No write with LSN `lsn` is flushed or would be replayed, and none ever can. */
  ghost predicate Dead(utf8: Utf8, w: World, lsn: nat)
    requires w.synced <= |w.log.records|
  {
    && lsn < FloorLsn(w) && (w.pending.Some? ==> w.pending.value.lsn != lsn)
    && NoneAt(Joined(w.cuts), lsn) && NoneAt(Tail(utf8, w), lsn)
  }

  /** A durable record that is neither committed nor under way is dead. */
  lemma UncommittedIsDead(utf8: Utf8, w: World, k: nat)
    requires Inv(utf8, w) && k < w.synced && w.log.records[k].lsn > w.checkpoint
    requires w.log.records[k].txn !in CommittedTxns(w.log.records)
    ensures Dead(utf8, w, w.log.records[k].lsn)
  {
    hide Replayed, CommittedTxns, WriteOf, LiveInv, AckInv, Joined;
    var lsn, records := w.log.records[k].lsn, w.log.records;
    forall x | x in Joined(w.cuts)
      ensures x.lsn != lsn
    {
      var i :| 0 <= i < |Joined(w.cuts)| && Joined(w.cuts)[i] == x;
    }
    forall x | x in Tail(utf8, w)
      ensures x.lsn != lsn
    {
      ReplayedIff(utf8, records, CommittedTxns(records), w.checkpoint, x);
      var q :| 0 <= q < |records| && Replays(utf8, records[q], CommittedTxns(records), w.checkpoint, x);
      LsnOf(utf8, records[q]);
      assert q != k;
    }
  }

  lemma LsnOf(utf8: Utf8, r: LogRecord)
    ensures WriteOf(utf8, r).Some? ==> WriteOf(utf8, r).value.lsn == r.lsn
  {
  }

  lemma CrashDead(utf8: Utf8, w: World, kept: nat, lsn: nat)
    requires LogInv(w) && Dead(utf8, w, lsn) && LogInv(CrashStep(w, kept))
    ensures Dead(utf8, CrashStep(w, kept), lsn)
  {
    hide CommittedTxns, Replayed, Joined;
    if w.synced <= kept <= |w.log.records| {
      ReplayGrows(utf8, w.log, kept, w.checkpoint);
      assert w.synced < kept <= |w.log.records| && w.synced > 0 ==> w.log.records[w.synced - 1].lsn < w.log.records[kept - 1].lsn;
      assert 0 < kept <= |w.log.records| ==> w.log.base <= w.log.records[kept - 1].lsn;
    }
  }

  lemma AppendDead(utf8: Utf8, w: World, rowId: u64, op: Op, payload: seq<byte>, lsn: nat)
    requires Inv(utf8, w) && Dead(utf8, w, lsn) && Inv(utf8, AppendStep(utf8, w, rowId, op, payload))
    ensures Dead(utf8, AppendStep(utf8, w, rowId, op, payload), lsn)
  {
    hide DecodedOp, Tail, Joined, Durable, SegmentsInv, AckInv, PendingInv, MemOf, MaxTxn;
    NextAbove(w);
    var after := AppendStep(utf8, w, rowId, op, payload);
    if after != w {
      AppendTail(utf8, w, after, NewRecord(w, op, payload));
      LogMore(w, after, NewRecord(w, op, payload));
    }
  }

  lemma CommitDead(utf8: Utf8, w: World, lsn: nat)
    requires Inv(utf8, w) && Dead(utf8, w, lsn) && Inv(utf8, CommitStep(utf8, w)) && Inv(utf8, CommitUnsyncedStep(utf8, w))
    ensures Dead(utf8, CommitStep(utf8, w), lsn) && Dead(utf8, CommitUnsyncedStep(utf8, w), lsn)
  {
    hide MemOf, MaxTxn, Tail, Joined, Durable, SegmentsInv, AckInv, LiveInv, WriteOf, FloorLsn;
    if CanCommit(utf8, w) {
      Committed(utf8, w);
      LsnOf(utf8, w.pending.value);
      CommitLog(utf8, w, CommitStep(utf8, w));
      CommitLog(utf8, w, CommitUnsyncedStep(utf8, w));
    }
  }

  lemma RecoverDead(utf8: Utf8, w: World, lsn: nat)
    requires LogInv(w) && PendingInv(utf8, w) && Dead(utf8, w, lsn)
    ensures var after := RecoverStep(utf8, w); after.synced <= |after.log.records| && Dead(utf8, after, lsn)
  {
    hide CommittedTxns, Replayed, MemOf, Joined;
    NextAbove(w);
  }

  lemma FlushDead(utf8: Utf8, w: World, stage: nat, lsn: nat)
    requires Inv(utf8, w) && Dead(utf8, w, lsn) && (Flushes(w) ==> Settled(w))
    ensures var after := FlushStep(w, stage); after.synced <= |after.log.records| && Dead(utf8, after, lsn)
  {
    hide Visible, MemOf, Tail, Durable, Joined, AckInv, SegmentsInv, MaxTxn;
    if Flushes(w) {
      FlushTail(utf8, w, stage);
      JoinedSnoc(w.cuts, w.shown);
      NextAbove(w);
    }
  }

  lemma DeadStays(utf8: Utf8, w: World, e: Event, lsn: nat)
    requires Inv(utf8, w) && w.synced <= |w.log.records| && Dead(utf8, w, lsn) && (e.Flush? && Flushes(w) ==> Settled(w))
    ensures var after := Next(utf8, w, e); Inv(utf8, after) && after.synced <= |after.log.records| && Dead(utf8, after, lsn)
  {
    hide LiveInv, AckInv, SegmentsInv, LogOk, FloorLsn, Tail, Joined, AppendStep, CommitStep, CommitUnsyncedStep, CrashStep, RecoverStep, FlushStep;
    NextKeeps(utf8, w, e);
    match e
    case AppendFails => SameDead(utf8, w, lsn);
    case AppendWrite(rowId, op, payload) => AppendDead(utf8, w, rowId, op, payload, lsn);
    case CommitWrite => CommitKeeps(utf8, w); CommitUnsyncedKeeps(utf8, w); CommitDead(utf8, w, lsn);
    case CommitUnsynced => CommitKeeps(utf8, w); CommitUnsyncedKeeps(utf8, w); CommitDead(utf8, w, lsn);
    case Crash(kept) => CrashDead(utf8, w, kept, lsn);
    case Recover => RecoverDead(utf8, w, lsn);
    case Flush(stage) => FlushDead(utf8, w, stage, lsn);
  }

  lemma SameDead(utf8: Utf8, w: World, lsn: nat)
    requires w.synced <= |w.log.records| && Dead(utf8, w, lsn)
    ensures Dead(utf8, AppendFailsStep(w), lsn)
  {
  }

  lemma {:induction false} DeadRuns(utf8: Utf8, w: World, events: seq<Event>, lsn: nat)
    requires Inv(utf8, w) && w.synced <= |w.log.records| && Dead(utf8, w, lsn) && FlushesSettled(utf8, w, events)
    ensures var after := Run(utf8, w, events); Inv(utf8, after) && after.synced <= |after.log.records| && Dead(utf8, after, lsn)
  {
    hide Inv, Settled, Flushes, Next, Dead, FlushesSettled;
    if events != [] {
      SettledInit(utf8, w, events);
      DeadRuns(utf8, w, events[..|events| - 1], lsn);
      DeadStays(utf8, Run(utf8, w, events[..|events| - 1]), events[|events| - 1], lsn);
    }
  }

  /** An appended write that was never committed never becomes visible, in this or any later recovery. */
  lemma UncommittedNeverVisible(utf8: Utf8, w: World, k: nat, events: seq<Event>)
    requires Inv(utf8, w) && k < w.synced && w.log.records[k].lsn > w.checkpoint
    requires w.log.records[k].txn !in CommittedTxns(w.log.records) && FlushesSettled(utf8, w, events)
    ensures var after := Run(utf8, w, events); after.up ==> forall x <- History(after) :: x.lsn != w.log.records[k].lsn
  {
    hide Run, Settled, Next, FlushesSettled, LogInv, SegmentsInv, AckInv, Tail, Joined, MemOf, MaxTxn, CommittedTxns, PendingInv;
    LogOkOf(w);
    UncommittedIsDead(utf8, w, k);
    DeadRuns(utf8, w, events, w.log.records[k].lsn);
  }

  // ---- when a flush is safe ----

  /** Every acknowledged write is in a segment or would be replayed. */
  predicate NoneLost(utf8: Utf8, w: World) {
    Kept(w.acked, Joined(w.cuts), Tail(utf8, w))
  }

  /** Whatever happens after the flush, no acknowledged write is lost, as long as later flushes are settled. */
  ghost predicate FlushSafe(utf8: Utf8, w: World) {
    forall stage, events :: FlushesSettled(utf8, FlushStep(w, stage), events) ==> NoneLost(utf8, Run(utf8, FlushStep(w, stage), events))
  }

  lemma InvLosesNone(utf8: Utf8, w: World)
    requires Inv(utf8, w)
    ensures NoneLost(utf8, w)
  {
    hide Tail, Durable, Joined, LiveInv, SegmentsInv, PendingInv;
    LogOkOf(w);
    DurableInTail(utf8, w);
  }

  /** Cut the flush short, lose what was not durable, recover, and write again. */
  function Losing(w: World): seq<Event> {
    [Crash(w.synced), Recover, AppendWrite(0, RowCodec.Delete, EncodedDelete(0)), CommitWrite]
  }

  /** After the lost tail, the next LSN is one that the checkpoint covers and nothing was written at. */
  lemma LowAgain(utf8: Utf8, w: World)
    requires Inv(utf8, w) && Flushes(w) && !Settled(w)
    ensures var a := RecoverStep(utf8, CrashStep(FlushStep(w, 0), w.synced));
            && a.up && Joined(a.cuts) == History(w) && NextLsn(a.log) <= a.checkpoint && a.acked == w.acked
            && NoneAt(History(w), NextLsn(a.log))
  {
    hide Replayed, MaxTxn, CommittedTxns, Visible, MemOf, Joined, AckInv, Tail;
    NextAbove(w);
    JoinedSnoc(w.cuts, w.shown);
    var f := CrashStep(FlushStep(w, 0), w.synced);
    assert NextLsn(f.log) == FloorLsn(w) < NextLsn(w.log) && f.checkpoint == NextLsn(w.log) - 1;
    forall x | x in Joined(w.cuts)
      ensures x.lsn != FloorLsn(w)
    {
      var i :| 0 <= i < |Joined(w.cuts)| && Joined(w.cuts)[i] == x;
    }
  }

  /** Nothing is replayed from at or below the checkpoint. */
  lemma TailAbove(utf8: Utf8, w: World, x: Write)
    requires x in Tail(utf8, w)
    ensures x.lsn > w.checkpoint
  {
    hide WriteOf, Replayed, CommittedTxns;
    ReplayedIff(utf8, w.log.records, CommittedTxns(w.log.records), w.checkpoint, x);
    var q :| 0 <= q < |w.log.records| && Replays(utf8, w.log.records[q], CommittedTxns(w.log.records), w.checkpoint, x);
    LsnOf(utf8, w.log.records[q]);
  }

  /** A write at an LSN that the checkpoint covers is acknowledged, and lost. */
  lemma CoveredIsLost(utf8: Utf8, a: World, rowId: u64, op: Op, payload: seq<byte>)
    requires a.up && NextLsn(a.log) <= a.checkpoint && Decodes(utf8, rowId, op, payload) && NoneAt(Joined(a.cuts), NextLsn(a.log))
    ensures var b, x := CommitStep(utf8, AppendStep(utf8, a, rowId, op, payload)), Write(rowId, op, NextLsn(a.log));
            && b.up && b.acked == a.acked + {x} && b.shown == a.shown + [x] && b.mem == Applied(a.mem, x)
            && x !in Joined(b.cuts) && x !in Tail(utf8, b)
  {
    hide DecodedOp, Joined, Tail;
    WriteOfNew(utf8, a, rowId, op, payload);
    var b, x := CommitStep(utf8, AppendStep(utf8, a, rowId, op, payload)), Write(rowId, op, NextLsn(a.log));
    if x in Tail(utf8, b) {
      TailAbove(utf8, b, x);
    }
  }

  lemma UnsettledFlushLoses(utf8: Utf8, w: World)
    requires Inv(utf8, w) && Flushes(w) && !Settled(w)
    ensures FlushesSettled(utf8, FlushStep(w, 0), Losing(w)) && !NoneLost(utf8, Run(utf8, FlushStep(w, 0), Losing(w)))
  {
    hide AppendStep, CommitStep, RecoverStep, CrashStep, FlushStep, Inv, Tail, Joined, NextLsn, DecodedOp;
    LowAgain(utf8, w);
    DeleteRoundTrip(utf8, 0);
    var a := RecoverStep(utf8, CrashStep(FlushStep(w, 0), w.synced));
    CoveredIsLost(utf8, a, 0, RowCodec.Delete, EncodedDelete(0));
    FourSteps(utf8, FlushStep(w, 0), Crash(w.synced), Recover, AppendWrite(0, RowCodec.Delete, EncodedDelete(0)), CommitWrite);
  }

  /** A flush is safe, whatever follows, if and only if it writes nothing or everything in the log is durable. */
  lemma FlushSafeIff(utf8: Utf8, base: nat, events: seq<Event>)
    requires base >= 1 && FlushesSettled(utf8, Started(base), events)
    ensures var w := After(utf8, base, events); FlushSafe(utf8, w) <==> (Flushes(w) ==> Settled(w))
  {
    hide Run, FlushesSettled, Inv, Flushes, Settled, FlushStep, NoneLost;
    AfterInv(utf8, base, events);
    var w := After(utf8, base, events);
    if Flushes(w) ==> Settled(w) {
      forall stage, more | FlushesSettled(utf8, FlushStep(w, stage), more)
        ensures NoneLost(utf8, Run(utf8, FlushStep(w, stage), more))
      {
        FlushKeeps(utf8, w, stage);
        RunKeeps(utf8, FlushStep(w, stage), more);
        InvLosesNone(utf8, Run(utf8, FlushStep(w, stage), more));
      }
    } else {
      UnsettledFlushLoses(utf8, w);
    }
  }

  /** An engine whose second write failed between its data record and its commit record would flush unsettled. */
  lemma UnsettledReached(utf8: Utf8, base: nat, id: u64, op: Op, payload: seq<byte>)
    requires base >= 1 && Decodes(utf8, id, op, payload)
    ensures var events := [AppendWrite(id, op, payload), CommitWrite, AppendWrite(id, op, payload)];
            FlushesSettled(utf8, Started(base), events) && Flushes(After(utf8, base, events)) && !Settled(After(utf8, base, events))
  {
    hide Inv, CanCommit, AppendStep, CommitStep, WriteOf, Decodes, Run, Tail, NextLsn, MemOf;
    var a := AppendWrite(id, op, payload);
    StartTail(utf8, base);
    Appended(utf8, Started(base), id, op, payload);
    var w1 := AppendStep(utf8, Started(base), id, op, payload);
    Committed(utf8, w1);
    var w2 := CommitStep(utf8, w1);
    Appended(utf8, w2, id, op, payload);
    RunSnoc(utf8, Started(base), [], a);
    RunSnoc(utf8, Started(base), [a], CommitWrite);
    RunSnoc(utf8, Started(base), [a, CommitWrite], a);
    RunNone(utf8, Started(base));
    assert [] + [a] == [a] && [a] + [CommitWrite] == [a, CommitWrite] && [a, CommitWrite] + [a] == [a, CommitWrite, a];
  }

  lemma RunNone(utf8: Utf8, w: World)
    ensures Run(utf8, w, []) == w
  {
  }

  /** A log whose LSNs begin at 0 loses its first write in the first recovery: the least checkpoint, 0, already covers it. */
  lemma BaseZeroLoses(utf8: Utf8, rowId: u64, op: Op, payload: seq<byte>)
    requires Decodes(utf8, rowId, op, payload)
    ensures var w, x := CommitStep(utf8, AppendStep(utf8, Started(0), rowId, op, payload)), Write(rowId, op, 0);
            w.acked == {x} && History(w) == [x] && History(RecoverStep(utf8, CrashStep(w, |w.log.records|))) == []
  {
    hide CommittedWrites, Decodes, WriteOf, MaxTxn, MemOf;
    var w, x := CommitStep(utf8, AppendStep(utf8, Started(0), rowId, op, payload)), Write(rowId, op, 0);
    JoinedNone();
    CoveredIsLost(utf8, Started(0), rowId, op, payload);
    Restarted(utf8, w);
    NoCuts(w);
    NoCuts(RecoverStep(utf8, CrashStep(w, |w.log.records|)));
    var r := NewRecord(Started(0), op, payload);
    WriteOfNew(utf8, Started(0), rowId, op, payload);
    FirstNotReplayed(utf8, r);
    assert w.log == Append(Log(0, [r]), r.txn, Commit, []);
  }

  lemma FirstNotReplayed(utf8: Utf8, r: LogRecord)
    requires r.lsn == 0
    ensures CommittedWrites(utf8, Append(Log(0, [r]), r.txn, Commit, []), 0) == []
  {
    hide WriteOf, CommittedTxns;
    var c := LogRecord(1, r.txn, Commit, []);
    var committed := CommittedTxns([r, c]);
    CommitIsNoWrite(utf8, c);
    ReplaySnoc(utf8, [r], c, committed, 0);
    ReplaySnoc(utf8, [], r, committed, 0);
    assert [r] + [c] == [r, c] && [] + [r] == [r];
  }

  // ---- a partial record ----

  predicate OnlyWrites(events: seq<Event>) {
    forall e <- events :: e.AppendFails? || e.AppendWrite? || e.CommitWrite? || e.CommitUnsynced?
  }

  /** A restart from a log in which a partial record stands after the first `n`: what follows it is not read. */
  function TornRestart(utf8: Utf8, w: World, n: nat): World
    requires n <= |w.log.records|
  {
    RecoverStep(utf8, w.(log := w.log.(records := w.log.records[..n]), up := false, pending := None))
  }

  /** What further writes leave of a world. */
  ghost predicate Grown(utf8: Utf8, w: World, b: World) {
    && Inv(utf8, b) && b.up && b.cuts == w.cuts && b.checkpoint == w.checkpoint && b.log.base == w.log.base
    && |w.log.records| <= |b.log.records| && b.log.records[..|w.log.records|] == w.log.records
    && (b.pending.Some? ==> NextLsn(w.log) <= b.pending.value.lsn)
    && w.acked <= b.acked && forall x <- b.acked - w.acked :: NextLsn(w.log) <= x.lsn
  }

  lemma WriteGrows(utf8: Utf8, w: World, b: World, e: Event)
    requires Inv(utf8, w) && Grown(utf8, w, b) && OnlyWrites([e])
    ensures Grown(utf8, w, Next(utf8, b, e))
  {
    hide LiveInv, PendingInv, AckInv, SegmentsInv, FloorLsn, WriteOf, DecodedOp, MemOf;
    assert e in [e];
    NextKeeps(utf8, b, e);
    LogOkOf(b);
    NextMonotone(w.log, b.log);
    if b.pending.Some? {
      LsnOf(utf8, b.pending.value);
    }
  }

  lemma NextMonotone(l: Log, m: Log)
    requires LogOk(m) && l.base == m.base && |l.records| <= |m.records| && m.records[..|l.records|] == l.records
    ensures NextLsn(l) <= NextLsn(m)
  {
    if l.records != [] {
      assert l.records[|l.records| - 1] == m.records[|l.records| - 1];
    }
  }

  lemma {:induction false} WritesGrow(utf8: Utf8, w: World, events: seq<Event>)
    requires Inv(utf8, w) && w.up && w.pending.None? && OnlyWrites(events)
    ensures Grown(utf8, w, Run(utf8, w, events))
  {
    hide Inv, Next;
    if events != [] {
      WritesGrow(utf8, w, events[..|events| - 1]);
      assert events[|events| - 1] in events;
      WriteGrows(utf8, w, Run(utf8, w, events[..|events| - 1]), events[|events| - 1]);
    } else {
      assert w.log.records[..|w.log.records|] == w.log.records;
    }
  }

  /** Writing on after an append that left part of a record: the next restart keeps every acknowledged write if and only if none was acknowledged since. */
  lemma TornAppend(utf8: Utf8, base: nat, events: seq<Event>, more: seq<Event>)
    requires base >= 1 && FlushesSettled(utf8, Started(base), events) && OnlyWrites(more)
    requires After(utf8, base, events).up && After(utf8, base, events).pending.None?
    ensures var w := After(utf8, base, events);
            var b := Run(utf8, w, more);
            && |w.log.records| <= |b.log.records|
            && ((forall x <- b.acked :: x in History(TornRestart(utf8, b, |w.log.records|))) <==> b.acked == w.acked)
  {
    hide Run, FlushesSettled, Inv, TornRestart, Grown;
    AfterInv(utf8, base, events);
    var w := After(utf8, base, events);
    WritesGrow(utf8, w, more);
    TornKeeps(utf8, w, Run(utf8, w, more));
  }

  lemma TornKeeps(utf8: Utf8, w: World, b: World)
    requires Inv(utf8, w) && Grown(utf8, w, b)
    ensures |w.log.records| <= |b.log.records|
    ensures (forall x <- b.acked :: x in History(TornRestart(utf8, b, |w.log.records|))) <==> b.acked == w.acked
  {
    hide Tail, Joined, Inv, TornRestart, NextLsn;
    TornShows(utf8, w, b);
    InvLosesNone(utf8, w);
    if b.acked != w.acked {
      assert !(b.acked <= w.acked);
      var x :| x in b.acked && x !in w.acked;
      NewIsAbove(utf8, w, x);
    }
  }

  lemma TornShows(utf8: Utf8, w: World, b: World)
    requires Grown(utf8, w, b)
    ensures History(TornRestart(utf8, b, |w.log.records|)) == Joined(w.cuts) + Tail(utf8, w)
  {
    hide Inv, Joined, Replayed, CommittedTxns, MemOf, MaxTxn, NextLsn;
  }

  lemma NewIsAbove(utf8: Utf8, w: World, x: Write)
    requires Inv(utf8, w) && NextLsn(w.log) <= x.lsn
    ensures x !in Joined(w.cuts) && x !in Tail(utf8, w)
  {
    hide Tail, Joined, LiveInv, AckInv, MemOf;
    NextAbove(w);
    TailRises(utf8, w);
  }

  // ---- writes are runs ----

  /** What an `insert` or `delete` amounts to, whether it succeeds or gives up. */
  function WriteEvents(fault: Fault, rowId: u64, op: Op, payload: seq<byte>): seq<Event> {
    match fault
    case NoFault => [AppendWrite(rowId, op, payload), CommitWrite]
    case NoAppend => [AppendFails]
    case NoCommit => [AppendWrite(rowId, op, payload)]
    case NoSync => [AppendWrite(rowId, op, payload), CommitUnsynced]
  }

  /** The engine's `insert` and `delete` are such runs: the encoded payload always decodes again, and a write is acknowledged exactly when nothing failed. */
  lemma WritesCommit(utf8: Utf8, w: World, fault: Fault, rowId: u64, op: Op, keys: seq<u32>)
    requires w.up && (op.Put? ==> Listing(keys, op.row) && RowDecodable(utf8, op.row))
    ensures var payload := if op.Put? then EncodedPut(rowId, op.row, keys) else EncodedDelete(rowId);
            var b := Run(utf8, w, WriteEvents(fault, rowId, op, payload));
            var x := Write(rowId, op, NextLsn(w.log));
            && EngineView(b.log, b.mem, b.nextTxn) == AfterWrite(EngineView(w.log, w.mem, w.nextTxn), fault, TypeOf(op), payload, x)
            && b.shown == (if fault.NoFault? then w.shown + [x] else w.shown)
            && b.acked == (if fault.NoFault? then w.acked + {x} else w.acked)
            && b.failed == (if fault.NoSync? then w.failed + {x} else w.failed)
            && (fault.NoFault? ==> Settled(b))
  {
    hide DecodedOp, EncodedPut, MemOf, Applied, Run;
    if op.Put? {
      PutRoundTrip(utf8, rowId, op.row, keys);
    } else {
      DeleteRoundTrip(utf8, rowId);
    }
    var payload := if op.Put? then EncodedPut(rowId, op.row, keys) else EncodedDelete(rowId);
    WriteOfNew(utf8, w, rowId, op, payload);
    var append := AppendWrite(rowId, op, payload);
    TwoSteps(utf8, w, append, CommitWrite);
    TwoSteps(utf8, w, append, CommitUnsynced);
    TwoSteps(utf8, w, AppendFails, AppendFails);
  }

  lemma TwoSteps(utf8: Utf8, w: World, a: Event, b: Event)
    ensures Run(utf8, w, [a]) == Next(utf8, w, a) && Run(utf8, w, [a, b]) == Next(utf8, Next(utf8, w, a), b)
  {
    hide Next, Run;
    RunNone(utf8, w);
    RunSnoc(utf8, w, [], a);
    RunSnoc(utf8, w, [a], b);
    assert [] + [a] == [a] && [a] + [b] == [a, b];
  }
}
