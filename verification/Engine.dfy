/**
 The write engine: a log of records, commit-filtered recovery, and a memtable. Over any run of
 writes, crashes, recoveries and flushes it shows exactly the committed writes.
 */
module Engines {
  import opened Wrappers
  import opened Numbers
  import opened Bytes
  import opened Cursors
  import opened RowCodec
  import opened Memtables

  datatype LogRecord = LogRecord(lsn: nat, txn: nat, rtype: RecordType, payload: seq<byte>)

  /** A log file: where its LSNs begin, and its complete records. */
  datatype Log = Log(base: nat, records: seq<LogRecord>)

  function NextLsn(l: Log): nat {
    if l.records == [] then l.base else l.records[|l.records| - 1].lsn + 1
  }

  function Append(l: Log, txn: nat, rtype: RecordType, payload: seq<byte>): Log {
    l.(records := l.records + [LogRecord(NextLsn(l), txn, rtype, payload)])
  }

  datatype EngineView = EngineView(log: Log, mem: Mem, nextTxn: nat)

  function TypeOf(op: Op): RecordType {
    if op.Put? then InsertRow else DeleteRow
  }

  /** A data record is in the log under a new transaction id. */
  function AfterAppend(e: EngineView, rtype: RecordType, payload: seq<byte>): EngineView {
    EngineView(Append(e.log, e.nextTxn, rtype, payload), e.mem, e.nextTxn + 1)
  }

  /** Its commit record is in the log, and the memtable shows it. */
  function AfterCommit(e: EngineView, txn: nat, w: Write): EngineView {
    EngineView(Append(e.log, txn, Commit, []), Applied(e.mem, w), e.nextTxn)
  }

  /** Where a write meets an I/O error: nothing is appended, or no commit record, or it is appended but not synced. */
  datatype Fault = NoFault | NoAppend | NoCommit | NoSync

  /** What an `insert` or `delete` leaves behind, whether it succeeds or gives up. */
  function AfterWrite(e: EngineView, fault: Fault, rtype: RecordType, payload: seq<byte>, w: Write): EngineView {
    var appended := AfterAppend(e, rtype, payload);
    match fault
    case NoFault => AfterCommit(appended, e.nextTxn, w)
    case NoAppend => e.(nextTxn := e.nextTxn + 1)
    case NoCommit => appended
    case NoSync => appended.(log := Append(appended.log, e.nextTxn, Commit, []))
  }

  // ---- recovery ----

  function CommittedTxns(records: seq<LogRecord>): set<nat> {
    set r | r in records && r.rtype.Commit? :: r.txn
  }

  function MaxTxn(records: seq<LogRecord>): (m: nat)
    ensures forall r <- records :: r.txn <= m
  {
    if records == [] then 0 else Max(MaxTxn(records[..|records| - 1]), records[|records| - 1].txn)
  }

  function WriteOf(utf8: Utf8, r: LogRecord): Option<Write> {
    var (rowId, op) :- DecodedOp(utf8, r.rtype, r.payload);
    Some(Write(rowId, op, r.lsn))
  }

  /** The writes replayed from the records: data, committed, above the checkpoint. */
  function Replayed(utf8: Utf8, records: seq<LogRecord>, committed: set<nat>, checkpoint: nat): seq<Write> {
    if records == [] then []
    else
      var before, r := Replayed(utf8, records[..|records| - 1], committed, checkpoint), records[|records| - 1];
      if r.lsn > checkpoint && r.txn in committed && WriteOf(utf8, r).Some? then before + [WriteOf(utf8, r).value] else before
  }

  function CommittedWrites(utf8: Utf8, l: Log, checkpoint: nat): seq<Write> {
    Replayed(utf8, l.records, CommittedTxns(l.records), checkpoint)
  }

  function Recovered(utf8: Utf8, l: Log, checkpoint: nat): EngineView {
    EngineView(l, MemOf(CommittedWrites(utf8, l, checkpoint)), MaxTxn(l.records) + 1)
  }

  // ---- the log and the engine themselves ----

  class Wal {
    var base: nat
    var records: seq<LogRecord>
    var nextLsn: nat

    function View(): Log
      reads this
    {
      Log(base, records)
    }

    ghost predicate Valid()
      reads this
    {
      nextLsn == NextLsn(View())
    }

    /** A fresh log. */
    constructor (base: nat)
      ensures Valid() && View() == Log(base, [])
    {
      this.base, records, nextLsn := base, [], base;
    }

    /** Reopen a log for appending: continue at its last LSN plus one. */
    constructor OpenAppend(l: Log)
      ensures Valid() && View() == l
    {
      base, records := l.base, l.records;
      nextLsn := if l.records == [] then l.base else l.records[|l.records| - 1].lsn + 1;
    }

    method AppendRecord(txn: nat, rtype: RecordType, payload: seq<byte>, fails: bool) returns (lsn: Option<nat>)
      requires Valid()
      modifies this
      ensures Valid() && View() == if fails then old(View()) else Append(old(View()), txn, rtype, payload)
      ensures lsn == if fails then None else Some(NextLsn(old(View())))
    {
      if fails {
        return None;
      }
      lsn := Some(nextLsn);
      records := records + [LogRecord(nextLsn, txn, rtype, payload)];
      nextLsn := nextLsn + 1;
    }

    /** Append the commit record, then sync. */
    method CommitTxn(txn: nat, fault: Fault) returns (lsn: Option<nat>)
      requires Valid()
      modifies this
      ensures Valid() && View() == if fault.NoCommit? then old(View()) else Append(old(View()), txn, Commit, [])
      ensures lsn == if fault.NoCommit? || fault.NoSync? then None else Some(NextLsn(old(View())))
    {
      lsn := AppendRecord(txn, Commit, [], fault.NoCommit?);
      if lsn.None? || fault.NoSync? {
        return None;
      }
    }

    method CheckpointTruncate(newBase: nat)
      modifies this
      ensures Valid() && View() == Log(newBase, [])
    {
      base, records, nextLsn := newBase, [], newBase;
    }
  }

  /** The recovery loop over the log's records. */
  method Replay(utf8: Utf8, records: seq<LogRecord>, checkpoint: nat, mem: Memtable) returns (maxTxn: nat)
    requires mem.View() == EmptyMem()
    modifies mem
    ensures mem.View() == MemOf(Replayed(utf8, records, CommittedTxns(records), checkpoint)) && maxTxn == MaxTxn(records)
  {
    hide DecodedOp, CommittedTxns;
    var committed := CommittedTxns(records);
    maxTxn := 0;
    assert records[..0] == [];
    for k := 0 to |records|
      invariant mem.View() == MemOf(Replayed(utf8, records[..k], committed, checkpoint))
      invariant maxTxn == MaxTxn(records[..k])
    {
      var r := records[k];
      assert records[..k + 1][..k] == records[..k];
      maxTxn := if r.txn > maxTxn then r.txn else maxTxn;
      if r.lsn > checkpoint && r.txn in committed {
        var decoded := DecodeOp(utf8, r.rtype, r.payload);
        if decoded.Some? {
          ghost var before := Replayed(utf8, records[..k], committed, checkpoint);
          mem.Apply(decoded.value.0, decoded.value.1, r.lsn);
          assert (before + [WriteOf(utf8, r).value])[..|before|] == before;
        }
      }
    }
    assert records[..|records|] == records;
  }

  class Engine {
    var wal: Wal
    var mem: Memtable
    var nextTxn: nat

    function View(): EngineView
      reads this, wal, mem
    {
      EngineView(wal.View(), mem.View(), nextTxn)
    }

    ghost predicate Valid()
      reads this, wal
    {
      wal.Valid()
    }

    constructor (base: nat)
      ensures Valid() && fresh(wal) && fresh(mem) && View() == EngineView(Log(base, []), EmptyMem(), 1)
    {
      wal := new Wal(base);
      mem := new Memtable();
      nextTxn := 1;
    }

    /** `recover_after`: replay committed records above the checkpoint, and restart ids above all in the log. */
    constructor RecoverAfter(utf8: Utf8, l: Log, checkpoint: nat)
      ensures Valid() && fresh(wal) && fresh(mem) && View() == Recovered(utf8, l, checkpoint)
    {
      wal := new Wal.OpenAppend(l);
      mem := new Memtable();
      nextTxn := 1;
      new;
      var maxTxn := Replay(utf8, l.records, checkpoint, mem);
      nextTxn := maxTxn + 1;
    }

    /** Append, commit, apply; the first that fails ends it. */
    method Insert(rowId: u64, row: Row, fault: Fault) returns (lsn: Option<nat>, ghost payload: seq<byte>)
      requires Valid()
      modifies this`nextTxn, wal, mem
      ensures Valid() && (exists keys :: Listing(keys, row) && payload == EncodedPut(rowId, row, keys))
      ensures lsn == if fault.NoFault? then Some(NextLsn(old(View()).log)) else None
      ensures View() == AfterWrite(old(View()), fault, InsertRow, payload, Write(rowId, Put(row), NextLsn(old(View()).log)))
    {
      var txn := nextTxn;
      nextTxn := nextTxn + 1;
      var bytes := EncodePut(rowId, row);
      payload := bytes;
      lsn := wal.AppendRecord(txn, InsertRow, bytes, fault.NoAppend?);
      if lsn.None? {
        return;
      }
      var committed := wal.CommitTxn(txn, fault);
      if committed.None? {
        lsn := None;
        return;
      }
      mem.Apply(rowId, Put(row), lsn.value);
    }

    method Delete(rowId: u64, fault: Fault) returns (lsn: Option<nat>)
      requires Valid()
      modifies this`nextTxn, wal, mem
      ensures Valid() && lsn == if fault.NoFault? then Some(NextLsn(old(View()).log)) else None
      ensures View()
           == AfterWrite(old(View()), fault, DeleteRow, EncodedDelete(rowId), Write(rowId, RowCodec.Delete, NextLsn(old(View()).log)))
    {
      var txn := nextTxn;
      nextTxn := nextTxn + 1;
      lsn := wal.AppendRecord(txn, DeleteRow, EncodedDelete(rowId), fault.NoAppend?);
      if lsn.None? {
        return;
      }
      var committed := wal.CommitTxn(txn, fault);
      if committed.None? {
        return None;
      }
      mem.Apply(rowId, RowCodec.Delete, lsn.value);
    }

    /** The row at the latest snapshot. */
    function Get(rowId: nat): Option<Row>
      reads this, mem
    {
      mem.Get(rowId, SnapshotLsn(mem.View()))
    }

    /** An empty memtable; the log is untouched. */
    method ResetMemtable()
      requires Valid()
      modifies this`mem
      ensures Valid() && fresh(mem) && View() == old(View()).(mem := EmptyMem())
    {
      mem := new Memtable();
    }

    method CheckpointWal(newBase: nat)
      requires Valid()
      modifies wal
      ensures Valid() && View() == old(View()).(log := Log(newBase, []))
    {
      wal.CheckpointTruncate(newBase);
    }
  }
}
