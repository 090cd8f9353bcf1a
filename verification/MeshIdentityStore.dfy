/** `getOrCreateMeshIdentity`: the users' rows, each with a key pair or still without. */
module MeshIdentityStore {
  import opened RowLocks
  import opened Wrappers

  type Identity = nat

  datatype Keys = NoKeys | Keys(identity: Identity)

  type Users = map<Key, Keys>

  /**
   * The statement the program issues next: it gives up on a missing row, returns the keys it finds, and
   * otherwise stores fresh ones. A throw anywhere leads to the rollback.
   */
  predicate Follows(db: Db<Keys>, s: Statement<Keys>) {
    if s.Begin? || s.Rollback? then true
    else if s.tx !in db.txs then false
    else
      var tx := db.txs[s.tx];
      if tx.broken then false
      else
        match tx.phase
        case Begun => s.Select?
        case Selected =>
          (match tx.read
           case None => false
           case Some(NoKeys) => s.Write? && s.value.Keys?
           case Some(Keys(_)) => s.Commit?)
        case Written => s.Commit?
  }

  /** Any number of calls, interleaved statement by statement, every statement free to fail. */
  ghost predicate Calls(users: Users, statements: seq<Statement<Keys>>) {
    forall i :: 0 <= i < |statements| ==> Follows(Run(users, statements[..i]), statements[i])
  }

  /** What a committed call has returned: the keys it stored, or else those it found. */
  function Returned(e: Entry<Keys>): Option<Keys> {
    if e.write.Some? then e.write else e.read
  }

  ghost predicate Honest(read: Option<Keys>, write: Option<Keys>) {
    if write.Some? then read == Some(NoKeys) && write.value.Keys? else read.Some? && read.value.Keys?
  }

  ghost predicate AllHonest(db: Db<Keys>) {
    && (forall t :: t in db.txs && db.txs[t].phase == Written ==> Honest(db.txs[t].read, db.txs[t].write))
    && (forall t :: t in db.txs && db.txs[t].phase != Written ==> db.txs[t].write == None)
    && LogHonest(db.log)
  }

  ghost predicate LogHonest(log: seq<Entry<Keys>>) {
    forall i :: 0 <= i < |log| ==> Honest(log[i].read, log[i].write)
  }

  lemma StepStaysHonest(db: Db<Keys>, s: Statement<Keys>)
    requires AllHonest(db) && Follows(db, s)
    ensures AllHonest(Exec(db, s))
  {
    hide DoCommit;
    if s.Commit? && s.ok && !Blocked(db, s) {
      CommitStaysHonest(db, s.tx);
    }
  }

  lemma CommitStaysHonest(db: Db<Keys>, t: nat)
    requires AllHonest(db) && t in db.txs && Honest(db.txs[t].read, db.txs[t].write)
    ensures AllHonest(DoCommit(db, t))
  {
  }

  lemma {:induction false} RunsAreHonest(users: Users, statements: seq<Statement<Keys>>)
    requires Calls(users, statements)
    ensures AllHonest(Run(users, statements))
  {
    hide AllHonest, Follows, Exec;
    if statements == [] {
      StartIsHonest(users);
    } else {
      var n := |statements| - 1;
      forall i | 0 <= i < n
        ensures Follows(Run(users, statements[..n][..i]), statements[..n][i])
      {
        assert statements[..n][..i] == statements[..i];
      }
      RunsAreHonest(users, statements[..n]);
      StepStaysHonest(Run(users, statements[..n]), statements[n]);
    }
  }

  lemma StartIsHonest(users: Users)
    ensures AllHonest(Start(users))
  {
  }

  lemma LinkedAt(users: Users, log: seq<Entry<Keys>>, i: nat)
    requires ChainOk(users, log) && LogHonest(log) && i < |log|
    ensures Honest(log[i].read, log[i].write) && log[i].read == Value(users, log[..i], log[i].key)
  {
    hide Value;
    assert Linked(users, log, i);
  }

  // Keys that a row has at some point of the history stay its keys.
  lemma {:induction false} KeysStay(users: Users, log: seq<Entry<Keys>>, k: Key, i: nat, n: nat)
    requires ChainOk(users, log) && LogHonest(log) && i <= n <= |log|
    requires Value(users, log[..i], k).Some? && Value(users, log[..i], k).value.Keys?
    ensures Value(users, log[..n], k) == Value(users, log[..i], k)
    decreases n
  {
    hide ChainOk, Value, LogHonest;
    if i < n {
      KeysStay(users, log, k, i, n - 1);
      assert log[..n] == log[..n - 1] + [log[n - 1]];
      ValueSnoc(users, log[..n - 1], log[n - 1], k);
      LinkedAt(users, log, n - 1);
    }
  }

  // Once a call has committed, its user's row holds what it returned, for good.
  lemma ReturnedStays(users: Users, log: seq<Entry<Keys>>, i: nat, n: nat)
    requires ChainOk(users, log) && LogHonest(log) && i < n <= |log|
    ensures Returned(log[i]).Some? && Returned(log[i]).value.Keys?
    ensures Value(users, log[..n], log[i].key) == Returned(log[i])
  {
    hide ChainOk, Value, LogHonest;
    var next := i + 1;
    LinkedAt(users, log, i);
    assert log[..next] == log[..i] + [log[i]];
    ValueSnoc(users, log[..i], log[i], log[i].key);
    KeysStay(users, log, log[i].key, next, n);
  }

  // However many calls for one user overlap, and whichever of them fail on the way, all that return
  // give the same identity, the one now in the row; and it is the row's own if it had one before.
  lemma EveryCallReturnsTheSame(users: Users, statements: seq<Statement<Keys>>, i: nat, j: nat)
    requires Calls(users, statements)
    requires var log := Run(users, statements).log; i < |log| && j < |log| && log[i].key == log[j].key
    ensures var db := Run(users, statements);
            var k := db.log[i].key;
            && k in db.rows && db.rows[k].Keys?
            && Returned(db.log[i]) == Some(db.rows[k]) == Returned(db.log[j])
            && (k in users && users[k].Keys? ==> db.rows[k] == users[k])
  {
    hide Run, Value, Calls, ChainOk, LogHonest;
    RunsKeep(users, statements);
    RunsAreHonest(users, statements);
    var log := Run(users, statements).log;
    assert log[..|log|] == log;
    ReturnedStays(users, log, i, |log|);
    ReturnedStays(users, log, j, |log|);
    RowIsLastEntry(users, statements, log[i].key);
    OwnKeysStay(users, log, log[i].key);
  }

  lemma OwnKeysStay(users: Users, log: seq<Entry<Keys>>, k: Key)
    requires ChainOk(users, log) && LogHonest(log)
    ensures k in users && users[k].Keys? ==> Value(users, log, k) == Some(users[k])
  {
    hide ChainOk, LogHonest;
    if k in users && users[k].Keys? {
      assert log[..0] == [] && log[..|log|] == log;
      KeysStay(users, log, k, 0, |log|);
    }
  }

  // The key columns change at most once: a call that comes after a committed one for the same user
  // finds the keys that one returned, and writes nothing.
  lemma KeysChangeOnce(users: Users, statements: seq<Statement<Keys>>, i: nat, j: nat)
    requires Calls(users, statements)
    requires var log := Run(users, statements).log; i < j < |log| && log[i].key == log[j].key
    ensures var log := Run(users, statements).log;
            log[j].read == Returned(log[i]) && log[j].write == None
  {
    hide Run, Value, Calls, ChainOk, LogHonest;
    RunsKeep(users, statements);
    RunsAreHonest(users, statements);
    var log := Run(users, statements).log;
    ReturnedStays(users, log, i, j);
    LinkedAt(users, log, j);
  }
}
