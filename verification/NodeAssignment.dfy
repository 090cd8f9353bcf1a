/**
 * `assignNode`: which organization each node belongs to, and the audit entry of every assignment.
 *
 * Each call is one transaction: it locks and reads the node's row, upserts it, inserts the audit entry
 * with what it read, and commits; when any of these fails, or the process around them, it rolls back.
 */
module NodeAssignment {
  import opened RowLocks
  import opened Wrappers

  type Organization = string

  type Nodes = map<Key, Organization>

  /** The statement the program issues next; a throw anywhere leads to the rollback. */
  predicate Follows(db: Db<Organization>, s: Statement<Organization>) {
    if s.Begin? || s.Rollback? then true
    else if s.tx !in db.txs then false
    else
      var tx := db.txs[s.tx];
      if tx.broken then false
      else
        match tx.phase
        case Begun => s.Select?
        case Selected => s.Write?
        case Written =>
          if tx.audits != [] then s.Commit?
          else s.Insert? && tx.write.Some? && s.audit == Audit(tx.key, tx.write.value, tx.read)
  }

  /** Any number of calls, interleaved statement by statement, every statement free to fail. */
  ghost predicate Calls(nodes: Nodes, statements: seq<Statement<Organization>>) {
    forall i :: 0 <= i < |statements| ==> Follows(Run(nodes, statements[..i]), statements[i])
  }

  // ---------------------------------------------------------------- rows and audit entries

  /** A transaction's pending entry, if it has one, is about its own pending row. */
  predicate PendingMatches(tx: Tx<Organization>) {
    tx.audits == [] ||
    (tx.phase == Written && tx.write.Some? && tx.audits == [Audit(tx.key, tx.write.value, tx.read)])
  }

  ghost predicate AllPendingMatch(txs: map<nat, Tx<Organization>>) {
    forall t :: t in txs ==> PendingMatches(txs[t])
  }

  /** Committed rows and committed audit entries, one for one and in the same order. */
  ghost predicate Matched(log: seq<Entry<Organization>>, audits: seq<Audit<Organization>>) {
    && |audits| == |log|
    && forall i :: 0 <= i < |log| ==>
         log[i].write.Some? && audits[i] == Audit(log[i].key, log[i].write.value, log[i].read)
  }

  lemma StepMatches(nodes: Nodes, db: Db<Organization>, s: Statement<Organization>)
    requires TxsOk(nodes, db) && AllPendingMatch(db.txs) && Matched(db.log, db.audits) && Follows(db, s)
    ensures var n := Exec(db, s); AllPendingMatch(n.txs) && Matched(n.log, n.audits)
  {
    hide TxsOk, Value, DoCommit;
    if s.Commit? && s.ok && !Blocked(db, s) {
      WrittenHasValue(nodes, db, s.tx);
      CommitMatches(db, s.tx);
    } else if s.Insert? && !Blocked(db, s) {
      WrittenHasValue(nodes, db, s.tx);
    }
  }

  lemma WrittenHasValue(nodes: Nodes, db: Db<Organization>, t: nat)
    requires TxsOk(nodes, db) && t in db.txs
    ensures db.txs[t].write.Some? <==> db.txs[t].phase == Written
  {
    hide Value;
    assert TxOk(nodes, db, t);
  }

  lemma CommitMatches(db: Db<Organization>, t: nat)
    requires AllPendingMatch(db.txs) && Matched(db.log, db.audits) && t in db.txs && db.txs[t].audits != []
    ensures var n := DoCommit(db, t); AllPendingMatch(n.txs) && Matched(n.log, n.audits)
  {
    assert PendingMatches(db.txs[t]);
  }

  lemma {:induction false} RunMatches(nodes: Nodes, statements: seq<Statement<Organization>>)
    requires Calls(nodes, statements)
    ensures var db := Run(nodes, statements); AllPendingMatch(db.txs) && Matched(db.log, db.audits)
  {
    hide Exec, Follows, AllPendingMatch, Matched, TxsOk;
    if statements == [] {
      NothingToMatch(nodes);
    } else {
      var n := |statements| - 1;
      var past := statements[..n];
      forall i | 0 <= i < n
        ensures Follows(Run(nodes, past[..i]), past[i])
      {
        assert past[..i] == statements[..i];
      }
      RunMatches(nodes, past);
      RunsKeep(nodes, past);
      StepMatches(nodes, Run(nodes, past), statements[n]);
    }
  }

  lemma NothingToMatch(nodes: Nodes)
    ensures var db := Start(nodes); AllPendingMatch(db.txs) && Matched(db.log, db.audits)
  {
  }

  // Over every interleaving, and whichever statements fail, the committed assignments and the committed
  // audit entries correspond one to one: never a moved node without its entry, never an entry without its
  // move. The table holds the last assignment of every node, and each transaction's entry is its own.
  lemma RowsAndAuditsMatch(nodes: Nodes, statements: seq<Statement<Organization>>, k: Key)
    requires Calls(nodes, statements)
    ensures var db := Run(nodes, statements);
            && Matched(db.log, db.audits)
            && LastOrganization(nodes, db.audits, k) == if k in db.rows then Some(db.rows[k]) else None
  {
    hide Run, Follows, Value, Matched;
    RunMatches(nodes, statements);
    RowIsLastEntry(nodes, statements, k);
    LastIsValue(nodes, Run(nodes, statements).log, Run(nodes, statements).audits, k);
  }

  /** The organization the audit table alone gives a node. */
  function LastOrganization(nodes: Nodes, audits: seq<Audit<Organization>>, k: Key): Option<Organization> {
    if audits == [] then (if k in nodes then Some(nodes[k]) else None)
    else if audits[|audits| - 1].key == k then Some(audits[|audits| - 1].organization)
    else LastOrganization(nodes, audits[..|audits| - 1], k)
  }

  lemma {:induction false} LastIsValue(nodes: Nodes, log: seq<Entry<Organization>>,
                                       audits: seq<Audit<Organization>>, k: Key)
    requires Matched(log, audits)
    ensures LastOrganization(nodes, audits, k) == Value(nodes, log, k)
  {
    if log != [] {
      LastIsValue(nodes, log[..|log| - 1], audits[..|log| - 1], k);
    }
  }

  // ---------------------------------------------------------------- the audit chain

  // In commit order, each entry of a node that had a row from the start names the organization the node
  // had just before it. In general an entry breaks the chain exactly when its transaction's SELECT found
  // no row, and so locked nothing, and another assignment of the node was committed between that SELECT
  // and this entry.
  lemma AuditChain(nodes: Nodes, statements: seq<Statement<Organization>>, i: nat)
    requires Calls(nodes, statements) && i < |Run(nodes, statements).audits|
    ensures var db := Run(nodes, statements);
            && |db.log| == |db.audits| && db.log[i].since <= i
            && var a, since := db.audits[i], db.log[i].since;
            && (a.key in nodes ==> a.previous == LastOrganization(nodes, db.audits[..i], a.key))
            && (a.previous != LastOrganization(nodes, db.audits[..i], a.key) <==>
                  && LastOrganization(nodes, db.audits[..since], a.key) == None
                  && exists j :: since <= j < i && db.audits[j].key == a.key)
  {
    hide Run, Follows, Value, LastOrganization;
    RunMatches(nodes, statements);
    ReadIsStaleExactly(nodes, statements, i);
    var db := Run(nodes, statements);
    var e := db.log[i];
    LastIsValue(nodes, db.log[..i], db.audits[..i], e.key);
    LastIsValue(nodes, db.log[..e.since], db.audits[..e.since], e.key);
    RowsStay(nodes, db.log[..e.since], e.key);
    if j :| e.since <= j < i && db.audits[j].key == e.key {
      assert db.log[j].key == e.key && db.log[j].write.Some?;
    }
  }

  // So two neighbouring entries of a node that had a row join up.
  lemma NeighboursJoin(nodes: Nodes, statements: seq<Statement<Organization>>, i: nat, j: nat)
    requires Calls(nodes, statements)
    requires var audits := Run(nodes, statements).audits;
             && i < j < |audits| && audits[i].key == audits[j].key && audits[j].key in nodes
             && forall m :: i < m < j ==> audits[m].key != audits[j].key
    ensures var audits := Run(nodes, statements).audits; audits[j].previous == Some(audits[i].organization)
  {
    hide Run, Follows;
    var audits := Run(nodes, statements).audits;
    AuditChain(nodes, statements, j);
    LastBefore(nodes, audits[..j], i, audits[j].key);
  }

  lemma {:induction false} LastBefore(nodes: Nodes, audits: seq<Audit<Organization>>, i: nat, k: Key)
    requires i < |audits| && audits[i].key == k && forall m :: i < m < |audits| ==> audits[m].key != k
    ensures LastOrganization(nodes, audits, k) == Some(audits[i].organization)
  {
    if i < |audits| - 1 {
      LastBefore(nodes, audits[..|audits| - 1], i, k);
    }
  }

  // A first assignment has no row to lock: two of them can overlap, and then the second entry names no
  // predecessor although one was committed before it.
  lemma FirstAssignmentCanLoseHistory(k: Key, x: Organization, y: Organization)
    returns (s: seq<Statement<Organization>>)
    ensures Calls(map[], s)
    ensures Run(map[], s).audits == [Audit(k, x, None), Audit(k, y, None)]
  {
    hide Run, Calls;
    s := BothRead(k);
    s := Commits(s, k, 0, x);
    s := Commits(s, k, 1, y);
  }

  lemma BothRead(k: Key) returns (s: seq<Statement<Organization>>)
    ensures var db := Run(map[], s);
            && Calls(map[], s) && Reads(db, k, 0) && Reads(db, k, 1) && db.locks == map[] && db.audits == []
  {
    hide Run, Calls;
    s := NoCalls();
    s := Then(s, Begin(k));
    s := Then(s, Begin(k));
    s := Then(s, Select(0, true));
    s := Then(s, Select(1, true));
  }

  /** The transaction has found no row and not yet written one. */
  predicate Reads(db: Db<Organization>, k: Key, t: nat) {
    && t in db.txs && db.txs[t].key == k && db.txs[t].phase == Selected && !db.txs[t].broken
    && db.txs[t].read == None && db.txs[t].audits == []
  }

  lemma Commits(past: seq<Statement<Organization>>, k: Key, t: nat, x: Organization)
    returns (s: seq<Statement<Organization>>)
    requires var db := Run(map[], past); Calls(map[], past) && Reads(db, k, t) && db.locks == map[]
    ensures var db, n := Run(map[], past), Run(map[], s);
            && Calls(map[], s) && n.locks == map[] && n.audits == db.audits + [Audit(k, x, None)]
            && n.txs == db.txs - {t}
  {
    hide Run, Calls;
    s := Then(past, Write(t, x, true));
    s := Then(s, Insert(t, Audit(k, x, None), true));
    s := Then(s, Commit(t, true));
  }

  lemma Then(past: seq<Statement<Organization>>, s: Statement<Organization>) returns (all: seq<Statement<Organization>>)
    requires Calls(map[], past) && Follows(Run(map[], past), s)
    ensures Calls(map[], all) && Run(map[], all) == Exec(Run(map[], past), s)
  {
    all := past + [s];
    RunSnoc(map[], past, s);
    forall i | 0 <= i < |all|
      ensures Follows(Run(map[], all[..i]), all[i])
    {
      if i < |past| {
        assert all[..i] == past[..i] && all[i] == past[i];
      } else {
        assert all[..i] == past;
      }
    }
  }

  lemma NoCalls() returns (s: seq<Statement<Organization>>)
    ensures s == [] && Calls(map[], s) && Run(map[], s) == Start(map[])
  {
    s := [];
    RunEmpty<Organization>(map[]);
  }
}
