/**
 The memtable: chains of row versions, read at a snapshot. What a snapshot sees is the newest
 write at or below it, and cutting a history into parts loses nothing.
 */
module Memtables {
  import opened Wrappers
  import opened Numbers
  import opened Bytes
  import opened RowCodec

  /** "Live forever", as `xmax`. */
  const INF: nat := U64_LIMIT - 1

  datatype Version = Version(xmin: nat, xmax: nat, row: Option<Row>)

  datatype Mem = Mem(rows: map<nat, seq<Version>>, minLsn: nat, maxLsn: nat)

  datatype Write = Write(rowId: nat, op: Op, lsn: nat)

  /** A row's newest version: its creation LSN, and its row unless it is a tombstone. */
  datatype Stamped = Stamped(stamp: nat, row: Option<Row>)

  type Entries = map<nat, Stamped>

  function RowOf(op: Op): Option<Row> {
    match op
    case Put(row) => Some(row)
    case Delete => None
  }

  function EmptyMem(): Mem {
    Mem(map[], INF, 0)
  }

  function Chain(m: Mem, id: nat): seq<Version> {
    if id in m.rows then m.rows[id] else []
  }

  /** The chain with its open version closed at `lsn`. */
  function Closed(vs: seq<Version>, lsn: nat): (r: seq<Version>)
    ensures |r| == |vs|
  {
    if vs != [] && vs[|vs| - 1].xmax == INF then vs[|vs| - 1 := vs[|vs| - 1].(xmax := lsn)] else vs
  }

  function Applied(m: Mem, w: Write): Mem {
    Mem(m.rows[w.rowId := Closed(Chain(m, w.rowId), w.lsn) + [Version(w.lsn, INF, RowOf(w.op))]],
        Min(m.minLsn, w.lsn), Max(m.maxLsn, w.lsn))
  }

  /** The memtable after a history of writes. */
  function MemOf(h: seq<Write>): Mem {
    if h == [] then EmptyMem() else Applied(MemOf(h[..|h| - 1]), h[|h| - 1])
  }

  /** The last version of the chain open at `t`. */
  function Seen(vs: seq<Version>, t: nat): Option<Stamped> {
    if vs == [] then None
    else
      var v := vs[|vs| - 1];
      if v.xmin <= t < v.xmax then Some(Stamped(v.xmin, v.row)) else Seen(vs[..|vs| - 1], t)
  }

  function SeenVersion(m: Mem, id: nat, t: nat): Option<Stamped> {
    Seen(Chain(m, id), t)
  }

  function SeenRow(m: Mem, id: nat, t: nat): Option<Row> {
    var s :- SeenVersion(m, id, t);
    s.row
  }

  /** `max_lsn.saturating_add(1)` */
  function SnapshotLsn(m: Mem): nat {
    Min(m.maxLsn + 1, INF)
  }

  /** Every row's visible version at the latest snapshot, tombstones included. */
  function Visible(m: Mem): Entries {
    map id | id in m.rows && SeenVersion(m, id, SnapshotLsn(m)).Some? :: SeenVersion(m, id, SnapshotLsn(m)).value
  }

  // ---- histories ----

  /** LSNs do not go down, grow strictly for one row, and stay below the sentinel. */
  predicate InOrder(h: seq<Write>) {
    && (forall i :: 0 <= i < |h| ==> h[i].lsn < INF)
    && forall i, j :: 0 <= i < j < |h| ==> h[i].lsn <= h[j].lsn && (h[i].rowId == h[j].rowId ==> h[i].lsn < h[j].lsn)
  }

  /** The last write to `id` at or below `t`. */
  function LatestAt(h: seq<Write>, id: nat, t: nat): Option<Write> {
    if h == [] then None
    else
      var w := h[|h| - 1];
      if w.rowId == id && w.lsn <= t then Some(w) else LatestAt(h[..|h| - 1], id, t)
  }

  /** It is the write with the greatest LSN among those to `id` at or below `t`. */
  lemma {:induction false} LatestIsGreatest(h: seq<Write>, id: nat, t: nat)
    requires InOrder(h)
    ensures var w := LatestAt(h, id, t);
            && (w.None? <==> forall i :: 0 <= i < |h| ==> !(h[i].rowId == id && h[i].lsn <= t))
            && (w.Some? ==> w.value in h && w.value.rowId == id && w.value.lsn <= t
                            && forall i :: 0 <= i < |h| && h[i].rowId == id && h[i].lsn <= t ==> h[i].lsn <= w.value.lsn)
  {
    if h != [] {
      var init := h[..|h| - 1];
      assert forall i :: 0 <= i < |init| ==> init[i] == h[i];
      LatestIsGreatest(init, id, t);
    }
  }

  predicate OpenEnded(vs: seq<Version>) {
    vs != [] ==> vs[|vs| - 1].xmax == INF
  }

  /** Closing the open version at `lsn` hides nothing from snapshots below it. */
  lemma ClosedSeen(vs: seq<Version>, lsn: nat, t: nat)
    requires OpenEnded(vs) && t < lsn <= INF
    ensures Seen(Closed(vs, lsn), t) == Seen(vs, t)
  {
    if vs != [] {
      assert Closed(vs, lsn)[..|vs| - 1] == vs[..|vs| - 1];
    }
  }

  lemma {:induction false} ChainsOpen(h: seq<Write>, id: nat)
    ensures OpenEnded(Chain(MemOf(h), id)) && (id in MemOf(h).rows <==> exists i :: 0 <= i < |h| && h[i].rowId == id)
  {
    if h != [] {
      var init := h[..|h| - 1];
      ChainsOpen(init, id);
      assert forall i :: 0 <= i < |init| ==> init[i] == h[i];
      assert h[|h| - 1].rowId == id ==> id in MemOf(h).rows;
      if i :| 0 <= i < |init| && init[i].rowId == id {
        assert h[i].rowId == id;
      }
    }
  }

  /** A snapshot at `t` sees, of each row, exactly the newest write at or below `t`. */
  lemma {:induction false} SnapshotSees(h: seq<Write>, id: nat, t: nat)
    requires InOrder(h) && t < INF
    ensures SeenVersion(MemOf(h), id, t)
         == var w := LatestAt(h, id, t); if w.None? then None else Some(Stamped(w.value.lsn, RowOf(w.value.op)))
  {
    if h != [] {
      var init, w := h[..|h| - 1], h[|h| - 1];
      assert forall i :: 0 <= i < |init| ==> init[i] == h[i];
      SnapshotSees(init, id, t);
      if w.rowId == id {
        ChainsOpen(init, id);
        var was := Chain(MemOf(init), id);
        var now := Closed(was, w.lsn) + [Version(w.lsn, INF, RowOf(w.op))];
        assert Chain(MemOf(h), id) == now && now[..|now| - 1] == Closed(was, w.lsn);
        if t < w.lsn {
          ClosedSeen(was, w.lsn, t);
        }
      }
    }
  }

  lemma {:induction false} BoundsOf(h: seq<Write>)
    requires InOrder(h)
    ensures forall i :: 0 <= i < |h| ==> MemOf(h).minLsn <= h[i].lsn <= MemOf(h).maxLsn
    ensures h != [] ==> MemOf(h).maxLsn == h[|h| - 1].lsn && MemOf(h).minLsn == h[0].lsn
  {
    if h != [] {
      var init := h[..|h| - 1];
      assert forall i :: 0 <= i < |init| ==> init[i] == h[i];
      BoundsOf(init);
    }
  }

  /** There is room for a snapshot above every write, below the greatest 64-bit number. */
  predicate RoomAbove(h: seq<Write>) {
    forall i :: 0 <= i < |h| ==> h[i].lsn + 1 < 0xffff_ffff_ffff_ffff
  }

  /** The newest write to `id` at all. */
  function LastOf(h: seq<Write>, id: nat): Option<Write> {
    LatestAt(h, id, INF)
  }

  lemma {:induction false} LatestAbove(h: seq<Write>, id: nat, t: nat, u: nat)
    requires forall i :: 0 <= i < |h| ==> h[i].lsn <= t && h[i].lsn <= u
    ensures LatestAt(h, id, t) == LatestAt(h, id, u)
  {
    if h != [] {
      LatestAbove(h[..|h| - 1], id, t, u);
    }
  }

  /** The latest snapshot sees every row's last write. */
  lemma LatestSnapshot(h: seq<Write>, id: nat)
    requires InOrder(h) && RoomAbove(h)
    ensures var w := LastOf(h, id);
            SeenVersion(MemOf(h), id, SnapshotLsn(MemOf(h))) == if w.None? then None else Some(Stamped(w.value.lsn, RowOf(w.value.op)))
  {
    BoundsOf(h);
    var t := SnapshotLsn(MemOf(h));
    SnapshotSees(h, id, t);
    LatestAbove(h, id, t, INF);
  }

  lemma {:induction false} NothingAtInf(vs: seq<Version>)
    requires Bounded(vs)
    ensures Seen(vs, INF) == None
  {
    if vs != [] {
      NothingAtInf(vs[..|vs| - 1]);
    }
  }

  predicate Bounded(vs: seq<Version>) {
    forall i :: 0 <= i < |vs| ==> vs[i].xmax <= INF
  }

  lemma ClosedBounded(vs: seq<Version>, lsn: nat)
    requires Bounded(vs) && lsn <= INF
    ensures Bounded(Closed(vs, lsn))
  {
    forall i | 0 <= i < |vs|
      ensures Closed(vs, lsn)[i].xmax <= INF
    {
      assert vs[i].xmax <= INF;
    }
  }

  lemma {:induction false} ChainsBounded(h: seq<Write>, id: nat)
    requires InOrder(h)
    ensures Bounded(Chain(MemOf(h), id))
  {
    if h != [] {
      var init := h[..|h| - 1];
      assert forall i :: 0 <= i < |init| ==> init[i] == h[i];
      ChainsBounded(init, id);
      var w := h[|h| - 1];
      if w.rowId == id {
        var closed := Closed(Chain(MemOf(init), id), w.lsn);
        ClosedBounded(Chain(MemOf(init), id), w.lsn);
        assert Chain(MemOf(h), id) == closed + [Version(w.lsn, INF, RowOf(w.op))];
      }
    }
  }

  /** The latest snapshot shows something of a history exactly when the history leaves room above it; else it shows nothing. */
  lemma LatestNeedsRoom(h: seq<Write>)
    requires InOrder(h) && h != []
    ensures RoomAbove(h) <==> Visible(MemOf(h)) != map[]
  {
    BoundsOf(h);
    if RoomAbove(h) {
      var w := h[|h| - 1];
      LatestSnapshot(h, w.rowId);
      ChainsOpen(h, w.rowId);
      assert w.rowId in Visible(MemOf(h));
    } else {
      assert SnapshotLsn(MemOf(h)) == INF;
      forall id
        ensures SeenVersion(MemOf(h), id, INF) == None
      {
        ChainsBounded(h, id);
        NothingAtInf(Chain(MemOf(h), id));
      }
    }
  }

  // ---- cutting and merging ----

  /** The newest stamp wins; the left side wins a tie. */
  function Merged(a: Entries, b: Entries): Entries {
    map id | id in a.Keys + b.Keys ::
      if id !in b then a[id] else if id !in a then b[id] else if b[id].stamp > a[id].stamp then b[id] else a[id]
  }

  /** Parts of a history, merged in any order and nesting. */
  datatype MergeTree = Part(h: seq<Write>) | Both(left: MergeTree, right: MergeTree)

  ghost function WriteSet(h: seq<Write>): set<Write> {
    set w | w in h
  }

  ghost function WritesOf(t: MergeTree): set<Write> {
    match t
    case Part(h) => WriteSet(h)
    case Both(l, r) => WritesOf(l) + WritesOf(r)
  }

  function Eval(t: MergeTree): Entries {
    match t
    case Part(h) => Visible(MemOf(h))
    case Both(l, r) => Merged(Eval(l), Eval(r))
  }

  ghost predicate PartsInOrder(t: MergeTree) {
    match t
    case Part(h) => InOrder(h) && RoomAbove(h)
    case Both(l, r) => PartsInOrder(l) && PartsInOrder(r)
  }

  /** `s` is the newest version of `id` among the writes `ws`. */
  ghost predicate Newest(ws: set<Write>, id: nat, s: Stamped) {
    exists w <- ws :: w.rowId == id && s == Stamped(w.lsn, RowOf(w.op)) && forall v <- ws :: v.rowId == id ==> v.lsn <= w.lsn
  }

  ghost predicate AllNewest(ws: set<Write>, e: Entries) {
    && (forall w <- ws :: w.rowId in e)
    && forall id <- e :: Newest(ws, id, e[id])
  }

  lemma VisibleNewest(h: seq<Write>)
    requires InOrder(h) && RoomAbove(h)
    ensures AllNewest(WriteSet(h), Visible(MemOf(h)))
  {
    hide Seen, LatestAt, InOrder, RoomAbove, Newest, MemOf;
    var ws, e := WriteSet(h), Visible(MemOf(h));
    forall id: nat
      ensures id in e <==> LastOf(h, id).Some?
      ensures id in e ==> Newest(ws, id, e[id])
    {
      VisibleAt(h, id);
    }
    forall w | w in ws
      ensures w.rowId in e
    {
      HasLast(h, w);
    }
  }

  lemma HasLast(h: seq<Write>, w: Write)
    requires InOrder(h) && w in h
    ensures LastOf(h, w.rowId).Some?
  {
    LatestIsGreatest(h, w.rowId, INF);
  }

  lemma VisibleAt(h: seq<Write>, id: nat)
    requires InOrder(h) && RoomAbove(h)
    ensures id in Visible(MemOf(h)) <==> LastOf(h, id).Some?
    ensures id in Visible(MemOf(h)) ==> Newest(WriteSet(h), id, Visible(MemOf(h))[id])
  {
    LatestSnapshot(h, id);
    ChainsOpen(h, id);
    LatestIsGreatest(h, id, INF);
    if LastOf(h, id).Some? {
      var w := LastOf(h, id).value;
      var i :| 0 <= i < |h| && h[i] == w;
      assert id in Visible(MemOf(h));
      var ws := WriteSet(h);
      assert w in ws && Visible(MemOf(h))[id] == Stamped(w.lsn, RowOf(w.op));
      forall v | v in ws && v.rowId == id
        ensures v.lsn <= w.lsn
      {
        var j :| 0 <= j < |h| && h[j] == v;
      }
    }
  }

  lemma MergedNewest(a: set<Write>, b: set<Write>, x: Entries, y: Entries)
    requires AllNewest(a, x) && AllNewest(b, y)
    ensures AllNewest(a + b, Merged(x, y))
  {
    var e := Merged(x, y);
    forall id | id in e
      ensures Newest(a + b, id, e[id])
    {
      MergedAt(a, b, x, y, id);
    }
  }

  lemma MergedAt(a: set<Write>, b: set<Write>, x: Entries, y: Entries, id: nat)
    requires AllNewest(a, x) && AllNewest(b, y) && id in Merged(x, y)
    ensures Newest(a + b, id, Merged(x, y)[id])
  {
    if id in x {
      assert Newest(a, id, x[id]);
    }
    if id in y {
      assert Newest(b, id, y[id]);
    }
  }

  lemma {:induction false} EvalNewest(t: MergeTree)
    requires PartsInOrder(t)
    ensures AllNewest(WritesOf(t), Eval(t))
  {
    hide AllNewest, Visible, Merged;
    match t
    case Part(h) => VisibleNewest(h);
    case Both(l, r) =>
      EvalNewest(l);
      EvalNewest(r);
      MergedNewest(WritesOf(l), WritesOf(r), Eval(l), Eval(r));
  }

  /** One write per row and LSN: the newest version is unique. */
  lemma NewestUnique(h: seq<Write>, x: Entries, y: Entries)
    requires InOrder(h) && AllNewest(WriteSet(h), x) && AllNewest(WriteSet(h), y)
    ensures x == y
  {
    var ws := WriteSet(h);
    forall id | id in x
      ensures id in y && y[id] == x[id]
    {
      assert Newest(ws, id, x[id]);
      SameNewest(h, x, y, id);
    }
    forall id | id in y
      ensures id in x
    {
      assert Newest(ws, id, y[id]);
    }
  }

  lemma SameNewest(h: seq<Write>, x: Entries, y: Entries, id: nat)
    requires InOrder(h) && AllNewest(WriteSet(h), x) && AllNewest(WriteSet(h), y) && id in x
    ensures id in y && y[id] == x[id]
  {
    hide Newest, InOrder;
    var ws := WriteSet(h);
    var v := NewestWrite(ws, id, x[id]);
    assert v.rowId in y;
    var w := NewestWrite(ws, id, y[id]);
    SameWrite(h, v, w);
  }

  lemma NewestWrite(ws: set<Write>, id: nat, s: Stamped) returns (w: Write)
    requires Newest(ws, id, s)
    ensures w in ws && w.rowId == id && s == Stamped(w.lsn, RowOf(w.op)) && forall v <- ws :: v.rowId == id ==> v.lsn <= w.lsn
  {
    w :| w in ws && w.rowId == id && s == Stamped(w.lsn, RowOf(w.op)) && forall v <- ws :: v.rowId == id ==> v.lsn <= w.lsn;
  }

  lemma SameWrite(h: seq<Write>, v: Write, w: Write)
    requires InOrder(h) && v in h && w in h && v.rowId == w.rowId && v.lsn == w.lsn
    ensures v == w
  {
    var i :| 0 <= i < |h| && h[i] == v;
    var j :| 0 <= j < |h| && h[j] == w;
  }

  /**
   Cut a history anywhere, into any number of parts, and merge their visible entries by newest stamp
   in any order: the result is the whole history's visible entries.
   */
  lemma CutAndMerge(h: seq<Write>, t: MergeTree)
    requires InOrder(h) && RoomAbove(h) && PartsInOrder(t) && WritesOf(t) == WriteSet(h)
    ensures Eval(t) == Visible(MemOf(h))
  {
    EvalNewest(t);
    VisibleNewest(h);
    NewestUnique(h, Eval(t), Visible(MemOf(h)));
  }

  /** A row whose last write deleted it is a tombstone in every merge of the parts. */
  lemma DeletedStaysDeleted(h: seq<Write>, t: MergeTree, id: nat)
    requires InOrder(h) && RoomAbove(h) && PartsInOrder(t) && WritesOf(t) == WriteSet(h)
    requires LastOf(h, id).Some? && LastOf(h, id).value.op == Delete
    ensures id in Eval(t) && Eval(t)[id].row == None
  {
    CutAndMerge(h, t);
    LatestSnapshot(h, id);
    VisibleAt(h, id);
  }

  // ---- the memtable itself ----

  class Memtable {
    var rows: map<nat, seq<Version>>
    var minLsn: nat
    var maxLsn: nat

    function View(): Mem
      reads this
    {
      Mem(rows, minLsn, maxLsn)
    }

    constructor ()
      ensures View() == EmptyMem()
    {
      rows, minLsn, maxLsn := map[], INF, 0;
    }

    /** Supersedes the row's open version. */
    method Apply(rowId: nat, op: Op, lsn: nat)
      modifies this
      ensures View() == Applied(old(View()), Write(rowId, op, lsn))
    {
      var versions := if rowId in rows then rows[rowId] else [];
      if versions != [] && versions[|versions| - 1].xmax == INF {
        versions := versions[|versions| - 1 := versions[|versions| - 1].(xmax := lsn)];
      }
      match op {
        case Put(row) => versions := versions + [Version(lsn, INF, Some(row))];
        case Delete => versions := versions + [Version(lsn, INF, None)];
      }
      rows := rows[rowId := versions];
      minLsn := if lsn < minLsn then lsn else minLsn;
      maxLsn := if lsn > maxLsn then lsn else maxLsn;
    }

    function VersionAt(id: nat, t: nat): Option<Stamped>
      reads this
    {
      SeenVersion(View(), id, t)
    }

    function Get(id: nat, t: nat): Option<Row>
      reads this
    {
      SeenRow(View(), id, t)
    }

    /** All rows with a version visible at the latest snapshot, tombstones included, by ascending id. */
    method VisibleEntriesVersioned() returns (ids: seq<nat>, entries: seq<Stamped>)
      ensures |ids| == |entries|
      ensures forall i, j :: 0 <= i < j < |ids| ==> ids[i] < ids[j]
      ensures forall id :: id in ids <==> id in Visible(View())
      ensures forall i :: 0 <= i < |ids| ==> ids[i] in Visible(View()) && entries[i] == Visible(View())[ids[i]]
    {
      hide Seen, Visible;
      var t := SnapshotLsn(View());
      ids, entries := [], [];
      var rest := rows.Keys;
      ghost var all := Visible(View());
      while rest != {}
        invariant rest <= rows.Keys && |ids| == |entries|
        invariant forall i, j :: 0 <= i < j < |ids| ==> ids[i] < ids[j]
        invariant forall i, y :: 0 <= i < |ids| && y in rest ==> ids[i] < y
        invariant forall id :: id in all && id in rows && id !in rest ==> id in ids
        invariant forall i :: 0 <= i < |ids| ==> ids[i] in all && entries[i] == all[ids[i]]
        decreases rest
      {
        ghost var least := LeastExists(rest);
        var id :| id in rest && forall y <- rest :: id <= y;
        rest := rest - {id};
        var s := VersionAt(id, t);
        VisibleWhen(View(), id);
        if s.Some? {
          ids := ids + [id];
          entries := entries + [s.value];
        }
      }
      AllVisible(View());
      assert forall i :: 0 <= i < |ids| ==> ids[i] in all;
    }
  }

  lemma VisibleWhen(m: Mem, id: nat)
    requires id in m.rows
    ensures var s := SeenVersion(m, id, SnapshotLsn(m));
            (id in Visible(m) <==> s.Some?) && (s.Some? ==> Visible(m)[id] == s.value)
  {
  }

  lemma AllVisible(m: Mem)
    ensures Visible(m).Keys <= m.rows.Keys
  {
  }
}
