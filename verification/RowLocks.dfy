/**
 * Concurrent transactions over single rows: `withTransaction` around a locking read, a write and an audit
 * INSERT, at the READ COMMITTED isolation level.
 *
 * A locking read of a row that exists waits for the row's lock and then reads the committed value; of a
 * row that does not exist it locks nothing. A write waits for the lock. Writes and audit entries are kept
 * aside until COMMIT; any statement can fail, and then only ROLLBACK is left. What a program issues, and
 * in which order, is a predicate over the statements of a run.
 */
module RowLocks {
  import opened Wrappers

  type Key = string

  datatype Phase = Begun | Selected | Written

  /** A row of the audit table: who got the key, and from whom. */
  datatype Audit<V> = Audit(key: Key, organization: V, previous: Option<V>)

  datatype Tx<V> = Tx(
    key: Key,
    phase: Phase,
    broken: bool,           // a statement has failed
    read: Option<V>,        // what the SELECT found
    since: nat,             // how many transactions had committed by then
    write: Option<V>,       // the row's pending value
    audits: seq<Audit<V>>)  // pending entries

  /** A committed transaction. */
  datatype Entry<V> = Entry(key: Key, read: Option<V>, since: nat, write: Option<V>)

  datatype Db<V> = Db(
    rows: map<Key, V>,
    audits: seq<Audit<V>>,
    locks: map<Key, nat>,  // by the transaction that holds each
    txs: map<nat, Tx<V>>,
    made: nat,
    log: seq<Entry<V>>)    // what has been committed, in order

  /** `ok` is false when the statement fails. */
  datatype Statement<V> =
    | Begin(key: Key)
    | Select(tx: nat, ok: bool)
    | Write(tx: nat, value: V, ok: bool)
    | Insert(tx: nat, audit: Audit<V>, ok: bool)
    | Commit(tx: nat, ok: bool)
    | Rollback(tx: nat)

  predicate OtherHolds<V>(db: Db<V>, t: nat)
    requires t in db.txs
  {
    db.txs[t].key in db.locks && db.locks[db.txs[t].key] != t
  }

  /** The statement waits, for ever or for now, or makes no sense where the transaction stands. */
  predicate Blocked<V>(db: Db<V>, s: Statement<V>) {
    if s.Begin? then false
    else if s.tx !in db.txs then true
    else
      var tx := db.txs[s.tx];
      match s
      case Select(t, ok) => tx.broken || tx.phase != Begun || (ok && tx.key in db.rows && OtherHolds(db, t))
      case Write(t, _, ok) => tx.broken || tx.phase != Selected || (ok && OtherHolds(db, t))
      case Insert(_, _, _) => tx.broken
      case Commit(_, _) => tx.broken || tx.phase == Begun
      case Rollback(_) => false
  }

  function Ended<V>(db: Db<V>, t: nat): Db<V>
    requires t in db.txs
  {
    var k := db.txs[t].key;
    db.(txs := db.txs - {t}, locks := if k in db.locks && db.locks[k] == t then db.locks - {k} else db.locks)
  }

  function Broken<V>(db: Db<V>, t: nat): Db<V>
    requires t in db.txs
  {
    db.(txs := db.txs[t := db.txs[t].(broken := true)])
  }

  function DoSelect<V>(db: Db<V>, t: nat): Db<V>
    requires t in db.txs
  {
    var tx := db.txs[t].(phase := Selected, since := |db.log|);
    if tx.key in db.rows then
      db.(txs := db.txs[t := tx.(read := Some(db.rows[tx.key]))], locks := db.locks[tx.key := t])
    else db.(txs := db.txs[t := tx.(read := None)])
  }

  function DoWrite<V>(db: Db<V>, t: nat, v: V): Db<V>
    requires t in db.txs
  {
    var tx := db.txs[t];
    db.(txs := db.txs[t := tx.(phase := Written, write := Some(v))], locks := db.locks[tx.key := t])
  }

  function DoCommit<V>(db: Db<V>, t: nat): Db<V>
    requires t in db.txs
  {
    var tx := db.txs[t];
    Ended(db, t).(rows := if tx.write.Some? then db.rows[tx.key := tx.write.value] else db.rows,
                  audits := db.audits + tx.audits,
                  log := db.log + [Entry(tx.key, tx.read, tx.since, tx.write)])
  }

  function Exec<V>(db: Db<V>, s: Statement<V>): Db<V> {
    if Blocked(db, s) then db
    else
      match s
      case Begin(k) => db.(txs := db.txs[db.made := Tx(k, Begun, false, None, 0, None, [])], made := db.made + 1)
      case Select(t, ok) => if ok then DoSelect(db, t) else Broken(db, t)
      case Write(t, v, ok) => if ok then DoWrite(db, t, v) else Broken(db, t)
      case Insert(t, a, ok) =>
        if ok then db.(txs := db.txs[t := db.txs[t].(audits := db.txs[t].audits + [a])]) else Broken(db, t)
      case Commit(t, ok) => if ok then DoCommit(db, t) else Broken(db, t)
      case Rollback(t) => Ended(db, t)
  }

  function Start<V>(rows: map<Key, V>): Db<V> {
    Db(rows, [], map[], map[], 0, [])
  }

  function Run<V>(rows: map<Key, V>, statements: seq<Statement<V>>): Db<V> {
    if statements == [] then Start(rows)
    else Exec(Run(rows, statements[..|statements| - 1]), statements[|statements| - 1])
  }

  // ---------------------------------------------------------------- committed history

  /** The value the committed history gives a row. */
  function Value<V>(rows: map<Key, V>, log: seq<Entry<V>>, k: Key): Option<V> {
    if log == [] then (if k in rows then Some(rows[k]) else None)
    else if log[|log| - 1].key == k && log[|log| - 1].write.Some? then log[|log| - 1].write
    else Value(rows, log[..|log| - 1], k)
  }

  lemma ValueSnoc<V>(rows: map<Key, V>, log: seq<Entry<V>>, e: Entry<V>, k: Key)
    ensures Value(rows, log + [e], k) == if e.key == k && e.write.Some? then e.write else Value(rows, log, k)
  {
    assert (log + [e])[..|log|] == log;
  }

  lemma {:induction false} RowsStay<V>(rows: map<Key, V>, log: seq<Entry<V>>, k: Key)
    ensures k in rows ==> Value(rows, log, k).Some?
  {
    if log != [] {
      RowsStay(rows, log[..|log| - 1], k);
    }
  }

  /** Some transaction committed a write of the row between these two points of the history. */
  ghost predicate WrittenBetween<V>(log: seq<Entry<V>>, k: Key, from: nat, upto: nat)
    requires upto <= |log|
  {
    exists j :: from <= j < upto && log[j].key == k && log[j].write.Some?
  }

  lemma {:induction false} ValueBetween<V>(rows: map<Key, V>, log: seq<Entry<V>>, k: Key, from: nat, upto: nat)
    requires from <= upto <= |log|
    ensures !WrittenBetween(log, k, from, upto) ==> Value(rows, log[..upto], k) == Value(rows, log[..from], k)
    ensures WrittenBetween(log, k, from, upto) ==> Value(rows, log[..upto], k).Some?
    decreases upto
  {
    if from < upto {
      ValueBetween(rows, log, k, from, upto - 1);
      assert log[..upto] == log[..upto - 1] + [log[upto - 1]];
      ValueSnoc(rows, log[..upto - 1], log[upto - 1], k);
      if log[upto - 1].key == k && log[upto - 1].write.Some? {
        assert WrittenBetween(log, k, from, upto);
      } else if WrittenBetween(log, k, from, upto) {
        assert WrittenBetween(log, k, from, upto - 1);
      }
    }
  }

  /** The transaction stands where it can, and what it read is still there, under its lock. */
  ghost predicate TxOk<V>(rows: map<Key, V>, db: Db<V>, t: nat)
    requires t in db.txs
  {
    var tx := db.txs[t];
    && t < db.made && tx.since <= |db.log|
    && (tx.phase == Begun ==> tx.read.None?)
    && (tx.write.Some? <==> tx.phase == Written)
    && (tx.read.Some? || tx.write.Some? ==> tx.key in db.locks && db.locks[tx.key] == t)
    && (tx.read.Some? ==> tx.key in db.rows && db.rows[tx.key] == tx.read.value)
    && (tx.phase != Begun ==> tx.read == Value(rows, db.log[..tx.since], tx.key))
  }

  ghost predicate TxsOk<V>(rows: map<Key, V>, db: Db<V>) {
    && (forall t :: t in db.txs ==> TxOk(rows, db, t))
    && (forall k :: k in db.locks ==>
          var u := db.locks[k];
          u in db.txs && db.txs[u].key == k && (db.txs[u].read.Some? || db.txs[u].write.Some?))
  }

  ghost predicate RowsOk<V>(rows: map<Key, V>, current: map<Key, V>, log: seq<Entry<V>>) {
    && (forall k :: k in current ==> Value(rows, log, k) == Some(current[k]))
    && (forall k :: k !in current ==> Value(rows, log, k) == None)
  }

  /** What entry `i` read was the row's value at its SELECT, and if it found a row, still at its COMMIT. */
  ghost predicate Linked<V>(rows: map<Key, V>, log: seq<Entry<V>>, i: nat)
    requires i < |log|
  {
    && log[i].since <= i
    && log[i].read == Value(rows, log[..log[i].since], log[i].key)
    && (log[i].read.Some? ==> log[i].read == Value(rows, log[..i], log[i].key))
  }

  ghost predicate ChainOk<V>(rows: map<Key, V>, log: seq<Entry<V>>) {
    forall i :: 0 <= i < |log| ==> Linked(rows, log, i)
  }

  ghost predicate Inv<V>(rows: map<Key, V>, db: Db<V>) {
    TxsOk(rows, db) && RowsOk(rows, db.rows, db.log) && ChainOk(rows, db.log)
  }

  lemma SelectKeeps<V>(rows: map<Key, V>, db: Db<V>, t: nat)
    requires Inv(rows, db) && !Blocked(db, Select(t, true))
    ensures TxsOk(rows, DoSelect(db, t))
  {
    hide Value, ChainOk;
    assert db.log[..|db.log|] == db.log;
  }

  lemma WriteKeeps<V>(rows: map<Key, V>, db: Db<V>, t: nat, v: V)
    requires Inv(rows, db) && !Blocked(db, Write(t, v, true))
    ensures TxsOk(rows, DoWrite(db, t, v))
  {
    hide Value, ChainOk, RowsOk;
  }

  lemma EndKeeps<V>(rows: map<Key, V>, db: Db<V>, t: nat)
    requires TxsOk(rows, db) && t in db.txs
    ensures TxsOk(rows, Ended(db, t))
  {
    hide Value;
  }

  lemma CommitKeepsTxs<V>(rows: map<Key, V>, db: Db<V>, t: nat)
    requires TxsOk(rows, db) && t in db.txs
    ensures TxsOk(rows, DoCommit(db, t))
  {
    hide Value;
    var n := DoCommit(db, t);
    forall u | u in n.txs
      ensures TxOk(rows, n, u)
    {
      assert TxOk(rows, db, u) && TxOk(rows, db, t);
      assert n.log[..db.txs[u].since] == db.log[..db.txs[u].since];
    }
  }

  lemma BeginKeeps<V>(rows: map<Key, V>, db: Db<V>, k: Key)
    requires TxsOk(rows, db)
    ensures TxsOk(rows, Exec(db, Begin(k)))
  {
    hide Value;
  }

  lemma BrokenKeeps<V>(rows: map<Key, V>, db: Db<V>, t: nat)
    requires TxsOk(rows, db) && t in db.txs
    ensures TxsOk(rows, Broken(db, t))
  {
    hide Value;
  }

  lemma InsertKeeps<V>(rows: map<Key, V>, db: Db<V>, t: nat, a: Audit<V>)
    requires TxsOk(rows, db) && t in db.txs
    ensures TxsOk(rows, db.(txs := db.txs[t := db.txs[t].(audits := db.txs[t].audits + [a])]))
  {
    hide Value;
  }

  lemma TxsKept<V>(rows: map<Key, V>, db: Db<V>, s: Statement<V>)
    requires Inv(rows, db)
    ensures TxsOk(rows, Exec(db, s))
  {
    hide TxsOk, ChainOk, RowsOk, DoSelect, DoWrite, DoCommit, Ended, Broken;
    if !Blocked(db, s) {
      match s {
        case Begin(k) => BeginKeeps(rows, db, k);
        case Select(t, ok) => if ok { SelectKeeps(rows, db, t); } else { BrokenKeeps(rows, db, t); }
        case Write(t, v, ok) => if ok { WriteKeeps(rows, db, t, v); } else { BrokenKeeps(rows, db, t); }
        case Insert(t, a, ok) => if ok { InsertKeeps(rows, db, t, a); } else { BrokenKeeps(rows, db, t); }
        case Commit(t, ok) => if ok { CommitKeepsTxs(rows, db, t); } else { BrokenKeeps(rows, db, t); }
        case Rollback(t) => EndKeeps(rows, db, t);
      }
    }
  }

  lemma LogKept<V>(rows: map<Key, V>, db: Db<V>, s: Statement<V>)
    requires Inv(rows, db)
    ensures var n := Exec(db, s); RowsOk(rows, n.rows, n.log) && ChainOk(rows, n.log)
  {
    hide Value, TxsOk, RowsOk, ChainOk, DoCommit;
    if s.Commit? && s.ok && !Blocked(db, s) {
      CommitKept(rows, db, s.tx);
    }
  }

  lemma CommitKept<V>(rows: map<Key, V>, db: Db<V>, t: nat)
    requires Inv(rows, db) && t in db.txs && db.txs[t].phase != Begun
    ensures var n := DoCommit(db, t); RowsOk(rows, n.rows, n.log) && ChainOk(rows, n.log)
  {
    hide Value, Ended;
    var tx := db.txs[t];
    var e := Entry(tx.key, tx.read, tx.since, tx.write);
    assert TxOk(rows, db, t);
    forall k
      ensures Value(rows, db.log + [e], k) == if e.key == k && e.write.Some? then e.write else Value(rows, db.log, k)
    {
      ValueSnoc(rows, db.log, e, k);
    }
    EntryLinks(rows, db.log, e);
  }

  lemma EntryLinks<V>(rows: map<Key, V>, log: seq<Entry<V>>, e: Entry<V>)
    requires ChainOk(rows, log) && e.since <= |log| && e.read == Value(rows, log[..e.since], e.key)
    requires e.read.Some? ==> e.read == Value(rows, log, e.key)
    ensures ChainOk(rows, log + [e])
  {
    hide Value;
    var all := log + [e];
    forall i | 0 <= i < |all|
      ensures Linked(rows, all, i)
    {
      if i < |log| {
        assert Linked(rows, log, i);
        assert all[..i] == log[..i] && all[..log[i].since] == log[..log[i].since];
      } else {
        assert all[..i] == log && all[..e.since] == log[..e.since];
      }
    }
  }

  lemma {:induction false} RunsKeep<V>(rows: map<Key, V>, statements: seq<Statement<V>>)
    ensures Inv(rows, Run(rows, statements))
  {
    hide TxsOk, RowsOk, ChainOk, Exec;
    if statements == [] {
      StartOk(rows);
    } else {
      var past, s := statements[..|statements| - 1], statements[|statements| - 1];
      RunsKeep(rows, past);
      TxsKept(rows, Run(rows, past), s);
      LogKept(rows, Run(rows, past), s);
    }
  }

  lemma StartOk<V>(rows: map<Key, V>)
    ensures Inv(rows, Start(rows))
  {
  }

  lemma RowIsLastEntry<V>(rows: map<Key, V>, statements: seq<Statement<V>>, k: Key)
    ensures var db := Run(rows, statements);
            Value(rows, db.log, k) == if k in db.rows then Some(db.rows[k]) else None
  {
    hide Run, Value;
    RunsKeep(rows, statements);
  }

  // What a committed transaction read differs from the value its row had just before the commit exactly
  // when its SELECT found no row, so that there was nothing to lock, and another transaction has
  // committed a write of the row since.
  lemma ReadIsStaleExactly<V>(rows: map<Key, V>, statements: seq<Statement<V>>, i: nat)
    requires i < |Run(rows, statements).log|
    ensures var log := Run(rows, statements).log;
            var e := log[i];
            && e.since <= i && e.read == Value(rows, log[..e.since], e.key)
            && (e.read != Value(rows, log[..i], e.key) <==>
                  Value(rows, log[..e.since], e.key) == None && WrittenBetween(log, e.key, e.since, i))
  {
    hide Run, Value, WrittenBetween;
    RunsKeep(rows, statements);
    var log := Run(rows, statements).log;
    assert Linked(rows, log, i);
    ValueBetween(rows, log, log[i].key, log[i].since, i);
  }

  /** What a transaction does next. */
  function Next<V>(db: Db<V>, t: nat, v: V): Statement<V>
    requires t in db.txs
  {
    if db.txs[t].broken then Rollback(t)
    else
      match db.txs[t].phase
      case Begun => Select(t, true)
      case Selected => Write(t, v, true)
      case Written => Commit(t, true)
  }

  // Transactions never wait for each other in a circle: while any is open, one of them can go on.
  lemma NoDeadlock<V>(rows: map<Key, V>, statements: seq<Statement<V>>, t: nat, v: V)
    requires t in Run(rows, statements).txs
    ensures var db := Run(rows, statements);
            exists u :: u in db.txs && !Blocked(db, Next(db, u, v))
  {
    hide Run, Value;
    var db := Run(rows, statements);
    RunsKeep(rows, statements);
    if Blocked(db, Next(db, t, v)) {
      var u := db.locks[db.txs[t].key];
      assert !Blocked(db, Next(db, u, v));
    } else {
      assert !Blocked(db, Next(db, t, v));
    }
  }

  // A locking read waits exactly while another open transaction holds the lock of a row that exists. For a
  // row that does not exist, or not yet, it never waits.
  lemma SelectWaitsExactly<V>(rows: map<Key, V>, statements: seq<Statement<V>>, t: nat)
    requires var db := Run(rows, statements); t in db.txs && db.txs[t].phase == Begun && !db.txs[t].broken
    ensures var db := Run(rows, statements);
            var k := db.txs[t].key;
            Blocked(db, Select(t, true)) <==>
              k in db.rows && exists u :: u in db.txs && u != t && db.txs[u].key == k &&
                                          (db.txs[u].read.Some? || db.txs[u].write.Some?)
  {
    hide Run, Value, ChainOk, RowsOk;
    RunsKeep(rows, statements);
    var db := Run(rows, statements);
    var k := db.txs[t].key;
    if k in db.locks {
      LockHolder(rows, db, k);
    }
    assert TxOk(rows, db, t);
    forall u | u in db.txs
      ensures TxOk(rows, db, u)
    {
    }
  }

  lemma LockHolder<V>(rows: map<Key, V>, db: Db<V>, k: Key)
    requires Inv(rows, db) && k in db.locks
    ensures var u := db.locks[k];
            u in db.txs && db.txs[u].key == k && (db.txs[u].read.Some? || db.txs[u].write.Some?)
  {
    hide Value;
  }

  // A transaction with a failed statement can do nothing any more but roll back, and then leaves nothing.
  lemma BrokenLeavesNothing<V>(rows: map<Key, V>, statements: seq<Statement<V>>, t: nat, s: Statement<V>)
    requires var db := Run(rows, statements); t in db.txs && db.txs[t].broken && !s.Begin? && s.tx == t
    ensures var db, now := Run(rows, statements), Exec(Run(rows, statements), s);
            && (!s.Rollback? ==> now == db)
            && (s.Rollback? ==>
                  && now.rows == db.rows && now.audits == db.audits && now.log == db.log && now.txs == db.txs - {t}
                  && forall k :: k in now.locks <==> k in db.locks && db.locks[k] != t)
  {
    hide Run, Value, ChainOk, RowsOk;
    RunsKeep(rows, statements);
  }

  // Whichever statement fails, the transaction is broken by it and nothing else changes.
  lemma FailureBreaks<V>(db: Db<V>, s: Statement<V>)
    requires !s.Begin? && !s.Rollback? && !s.ok && !Blocked(db, s)
    ensures var now := Exec(db, s);
            && s.tx in now.txs && now.txs[s.tx] == db.txs[s.tx].(broken := true)
            && now == db.(txs := now.txs) && now.txs - {s.tx} == db.txs - {s.tx}
  {
  }

  lemma RunEmpty<V>(rows: map<Key, V>)
    ensures Run(rows, []) == Start(rows)
  {
  }

  lemma RunSnoc<V>(rows: map<Key, V>, past: seq<Statement<V>>, s: Statement<V>)
    ensures Run(rows, past + [s]) == Exec(Run(rows, past), s)
  {
    assert (past + [s])[..|past|] == past;
  }

  // ---------------------------------------------------------------- the connections

  /** The shared tables, and the statements of the transactions open on them. */
  class Database<V(==)> {
    var rows: map<Key, V>
    var audits: seq<Audit<V>>
    var locks: map<Key, nat>
    var open: map<nat, Tx<V>>
    var made: nat
    var log: seq<Entry<V>>
    ghost const initial: map<Key, V>
    ghost var history: seq<Statement<V>>

    ghost function Now(): Db<V>
      reads this
    {
      Db(rows, audits, locks, open, made, log)
    }

    ghost predicate Valid()
      reads this
    {
      Now() == Run(initial, history)
    }

    constructor (rows: map<Key, V>)
      ensures Valid() && history == [] && initial == rows
    {
      this.rows, audits, locks, open, made, log := rows, [], map[], map[], 0, [];
      initial, history := rows, [];
    }

    ghost method Record(s: Statement<V>, before: Db<V>)
      requires before == Run(initial, history) && Now() == Exec(before, s)
      modifies `history
      ensures Valid() && history == old(history) + [s]
    {
      hide Run, Exec;
      RunSnoc(initial, history, s);
      history := history + [s];
    }

    /** A statement fails: the transaction is left with nothing but its rollback. */
    method Break(t: nat)
      requires t in open
      modifies `open
      ensures Now() == Broken(old(Now()), t)
    {
      open := open[t := open[t].(broken := true)];
    }

    method BeginTx(k: Key) returns (t: nat)
      requires Valid()
      modifies this
      ensures Valid() && history == old(history) + [Begin(k)] && t == old(made)
    {
      hide Run;
      ghost var before := Now();
      t := made;
      open := open[t := Tx(k, Begun, false, None, 0, None, [])];
      made := made + 1;
      Record(Begin(k), before);
    }

    /** `SELECT ... FOR UPDATE`; false while it has to wait. */
    method SelectForUpdate(t: nat, ok: bool) returns (done: bool)
      requires Valid()
      modifies this
      ensures Valid() && history == old(history) + [Select(t, ok)] && done == !Blocked(old(Now()), Select(t, ok))
    {
      hide Run;
      ghost var before := Now();
      done := t in open && !open[t].broken && open[t].phase == Begun;
      if done && !ok {
        Break(t);
      } else if done {
        var k := open[t].key;
        done := !(k in rows && k in locks && locks[k] != t);
        if done { LockAndRead(t); }
      }
      Record(Select(t, ok), before);
    }

    method LockAndRead(t: nat)
      requires t in open
      modifies `open, `locks
      ensures Now() == DoSelect(old(Now()), t)
    {
      var tx := open[t].(phase := Selected, since := |log|);
      if tx.key in rows {
        open := open[t := tx.(read := Some(rows[tx.key]))];
        locks := locks[tx.key := t];
      } else {
        open := open[t := tx.(read := None)];
      }
    }

    /** The upsert, or the update; false while it has to wait. */
    method WriteRow(t: nat, v: V, ok: bool) returns (done: bool)
      requires Valid()
      modifies this
      ensures Valid() && history == old(history) + [Write(t, v, ok)] && done == !Blocked(old(Now()), Write(t, v, ok))
    {
      hide Run;
      ghost var before := Now();
      done := t in open && !open[t].broken && open[t].phase == Selected;
      if done && !ok {
        Break(t);
      } else if done {
        var tx := open[t];
        done := !(tx.key in locks && locks[tx.key] != t);
        if done {
          open := open[t := tx.(phase := Written, write := Some(v))];
          locks := locks[tx.key := t];
        }
      }
      Record(Write(t, v, ok), before);
    }

    /** `insertAuditLog` on the transaction's own connection. */
    method InsertAudit(t: nat, a: Audit<V>, ok: bool) returns (done: bool)
      requires Valid()
      modifies this
      ensures Valid() && history == old(history) + [Insert(t, a, ok)] && done == !Blocked(old(Now()), Insert(t, a, ok))
    {
      hide Run;
      ghost var before := Now();
      done := t in open && !open[t].broken;
      if done && !ok {
        Break(t);
      } else if done {
        open := open[t := open[t].(audits := open[t].audits + [a])];
      }
      Record(Insert(t, a, ok), before);
    }

    method Release(t: nat)
      requires t in open
      modifies `open, `locks
      ensures Now() == Ended(old(Now()), t)
    {
      var k := open[t].key;
      open := open - {t};
      if k in locks && locks[k] == t { locks := locks - {k}; }
    }

    method CommitTx(t: nat, ok: bool) returns (done: bool)
      requires Valid()
      modifies this
      ensures Valid() && history == old(history) + [Commit(t, ok)] && done == !Blocked(old(Now()), Commit(t, ok))
    {
      hide Run, Ended;
      ghost var before := Now();
      done := t in open && !open[t].broken && open[t].phase != Begun;
      if done && !ok {
        Break(t);
      } else if done {
        var tx := open[t];
        Release(t);
        if tx.write.Some? { rows := rows[tx.key := tx.write.value]; }
        audits := audits + tx.audits;
        log := log + [Entry(tx.key, tx.read, tx.since, tx.write)];
      }
      Record(Commit(t, ok), before);
    }

    method RollbackTx(t: nat)
      requires Valid()
      modifies this
      ensures Valid() && history == old(history) + [Rollback(t)]
    {
      hide Run, Ended;
      ghost var before := Now();
      if t in open { Release(t); }
      Record(Rollback(t), before);
    }
  }
}
