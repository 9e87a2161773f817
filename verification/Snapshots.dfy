/**
 Shared-session snapshot writes: PATCH transactions on one session row, interleaved
 step by step under the row lock (`server/src/sessions.ts`).
 */
module Snapshots {
  import opened Text

  /** `baseRevision` of a PATCH: absent, `null`, or a number. */
  datatype Base = Unstated | NoSnapshot | At(revision: int)

  datatype Patch = Patch(title: Option<string>, threadId: Option<Option<string>>, snapshot: Option<string>, base: Base)

  datatype Row = Row(title: string, threadId: Option<string>)

  datatype Snap = Snap(id: int, content: string)

  /** The UPDATE: fields the PATCH leaves out keep their value. */
  function Apply(row: Row, p: Patch): Row {
    Row(match p.title { case Some(t) => t case None => row.title },
        match p.threadId { case Some(t) => t case None => row.threadId })
  }

  /** `latestSnapshotRevision`: the highest id, rows being appended in id order. */
  function Latest(snaps: seq<Snap>): Option<int> {
    if snaps == [] then None else Some(snaps[|snaps| - 1].id)
  }

  /** The conflict test of `writeSnapshot`: a stated base must be the current revision. */
  predicate Conflicts(base: Base, current: Option<int>) {
    var advertised := match base { case At(r) => Some(r) case _ => None };
    !base.Unstated? && !(advertised == None && current == None) && advertised != current
  }

  // ----- the transactions, step by step

  datatype Phase =
    | Begun
    | Updated(row: Row)
    | Checked(row: Row, latest: Option<int>)
    | Inserted(row: Row, snap: Snap)
    | Committed(revision: Option<int>)
    | Conflicted(current: Option<int>)
    | Aborted

  datatype Tx = Tx(patch: Patch, phase: Phase)

  /** A committed PATCH, with the revision it wrote if any. */
  datatype Entry = Entry(tx: int, patch: Patch, revision: Option<int>)

  /** Committed data, the id sequence, the row lock, the transactions, and the history of commits. */
  datatype Db = Db(row: Row, snaps: seq<Snap>, nextId: int, lock: Option<int>, txs: map<int, Tx>, log: seq<Entry>)

  datatype Action =
    | Begin(tx: int, patch: Patch)
    | LockAndUpdate(tx: int)
    | ReadRevision(tx: int)
    | Insert(tx: int)
    | Refuse(tx: int)
    | Commit(tx: int)
    | Abort(tx: int)
    | UseIds(count: nat)

  predicate HoldsLock(phase: Phase) {
    phase.Updated? || phase.Checked? || phase.Inserted?
  }

  predicate Active(phase: Phase) {
    phase.Begun? || HoldsLock(phase)
  }

  predicate Enabled(db: Db, a: Action) {
    match a
    case Begin(t, _) => t !in db.txs
    case LockAndUpdate(t) => t in db.txs && db.txs[t].phase.Begun? && db.lock.None?
    case ReadRevision(t) => t in db.txs && db.txs[t].phase.Updated? && db.txs[t].patch.snapshot.Some?
    case Insert(t) =>
      t in db.txs && db.txs[t].phase.Checked? && db.txs[t].patch.snapshot.Some?
      && !Conflicts(db.txs[t].patch.base, db.txs[t].phase.latest)
    case Refuse(t) => t in db.txs && db.txs[t].phase.Checked? && Conflicts(db.txs[t].patch.base, db.txs[t].phase.latest)
    case Commit(t) =>
      t in db.txs && (db.txs[t].phase.Inserted? || (db.txs[t].phase.Updated? && db.txs[t].patch.snapshot.None?))
    case Abort(t) => t in db.txs && Active(db.txs[t].phase)
    case UseIds(_) => true
  }

  function SetPhase(db: Db, t: int, phase: Phase): Db
    requires t in db.txs
  {
    db.(txs := db.txs[t := db.txs[t].(phase := phase)])
  }

  function Release(db: Db, t: int): Db {
    if db.lock == Some(t) then db.(lock := None) else db
  }

  function Next(db: Db, a: Action): Db
    requires Enabled(db, a)
  {
    match a
    case Begin(t, p) => db.(txs := db.txs[t := Tx(p, Begun)])
    case LockAndUpdate(t) => SetPhase(db, t, Updated(Apply(db.row, db.txs[t].patch))).(lock := Some(t))
    case ReadRevision(t) => SetPhase(db, t, Checked(db.txs[t].phase.row, Latest(db.snaps)))
    case Insert(t) =>
      var tx := db.txs[t];
      SetPhase(db, t, Inserted(tx.phase.row, Snap(db.nextId, tx.patch.snapshot.value))).(nextId := db.nextId + 1)
    case Refuse(t) => Release(SetPhase(db, t, Conflicted(db.txs[t].phase.latest)), t)
    case Commit(t) =>
      var tx := db.txs[t];
      var written := if tx.phase.Inserted? then [tx.phase.snap] else [];
      var revision := if tx.phase.Inserted? then Some(tx.phase.snap.id) else None;
      Release(SetPhase(db, t, Committed(revision)), t)
        .(row := tx.phase.row, snaps := db.snaps + written, log := db.log + [Entry(t, tx.patch, revision)])
    case Abort(t) => Release(SetPhase(db, t, Aborted), t)
    case UseIds(n) => db.(nextId := db.nextId + n)
  }

  /** The store as fields that the steps of a transaction update. */
  class SessionStore {
    var row: Row
    var snaps: seq<Snap>
    var nextId: int
    var lock: Option<int>
    var txs: map<int, Tx>
    ghost var log: seq<Entry>

    ghost function View(): Db
      reads this
    {
      Db(row, snaps, nextId, lock, txs, log)
    }

    constructor (row: Row, snaps: seq<Snap>, nextId: int)
      ensures View() == Db(row, snaps, nextId, None, map[], [])
    {
      this.row, this.snaps, this.nextId := row, snaps, nextId;
      lock, txs, log := None, map[], [];
    }

    method BeginPatch(t: int, p: Patch)
      requires Enabled(View(), Begin(t, p))
      modifies this
      ensures View() == Next(old(View()), Begin(t, p))
    {
      txs := txs[t := Tx(p, Begun)];
    }

    /** The UPDATE waits for the row lock and holds it from then on. */
    method UpdateRow(t: int)
      requires Enabled(View(), LockAndUpdate(t))
      modifies this
      ensures View() == Next(old(View()), LockAndUpdate(t))
    {
      lock := Some(t);
      txs := txs[t := txs[t].(phase := Updated(Apply(row, txs[t].patch)))];
    }

    /** The first half of `writeSnapshot`: read the current revision under the lock. */
    method ReadLatest(t: int)
      requires Enabled(View(), ReadRevision(t))
      modifies this
      ensures View() == Next(old(View()), ReadRevision(t))
    {
      var latest: Option<int> := None;
      if snaps != [] {
        latest := Some(snaps[|snaps| - 1].id);
      }
      txs := txs[t := txs[t].(phase := Checked(txs[t].phase.row, latest))];
    }

    /** The second half: refuse a stale base and roll back, or insert the snapshot row. */
    method WriteOrRefuse(t: int) returns (written: bool)
      requires t in txs && txs[t].phase.Checked? && txs[t].patch.snapshot.Some?
      modifies this
      ensures written <==> !Conflicts(old(txs)[t].patch.base, old(txs)[t].phase.latest)
      ensures View() == Next(old(View()), if written then Insert(t) else Refuse(t))
    {
      var tx := txs[t];
      var advertised := match tx.patch.base { case At(r) => Some(r) case _ => None };
      var conflict := tx.patch.base != Unstated && !(advertised == None && tx.phase.latest == None)
                      && advertised != tx.phase.latest;
      if conflict {
        txs := txs[t := tx.(phase := Conflicted(tx.phase.latest))];
        if lock == Some(t) {
          lock := None;
        }
        return false;
      }
      var id := nextId;
      nextId := nextId + 1;
      txs := txs[t := tx.(phase := Inserted(tx.phase.row, Snap(id, tx.patch.snapshot.value)))];
      return true;
    }

    method CommitPatch(t: int) returns (revision: Option<int>)
      requires Enabled(View(), Commit(t))
      modifies this
      ensures View() == Next(old(View()), Commit(t))
      ensures txs[t].phase == Committed(revision)
    {
      var tx := txs[t];
      row := tx.phase.row;
      revision := None;
      if tx.phase.Inserted? {
        snaps := snaps + [tx.phase.snap];
        revision := Some(tx.phase.snap.id);
      }
      assert old(snaps) + [] == old(snaps);
      txs := txs[t := tx.(phase := Committed(revision))];
      if lock == Some(t) {
        lock := None;
      }
      log := log + [Entry(t, tx.patch, revision)];
    }

    /** ROLLBACK after any other failure. */
    method RollBack(t: int)
      requires Enabled(View(), Abort(t))
      modifies this
      ensures View() == Next(old(View()), Abort(t))
    {
      txs := txs[t := txs[t].(phase := Aborted)];
      if lock == Some(t) {
        lock := None;
      }
    }
  }

  // ----- whole runs

  predicate Legal(db: Db, run: seq<Action>)
    decreases |run|
  {
    run == [] || (Enabled(db, run[0]) && Legal(Next(db, run[0]), run[1..]))
  }

  function After(db: Db, run: seq<Action>): Db
    requires Legal(db, run)
    decreases |run|
  {
    if run == [] then db else After(Next(db, run[0]), run[1..])
  }

  ghost predicate Increasing(snaps: seq<Snap>, bound: int) {
    && (forall i, j :: 0 <= i < j < |snaps| ==> snaps[i].id < snaps[j].id)
    && (forall i :: 0 <= i < |snaps| ==> snaps[i].id < bound)
  }

  /** A session as POST leaves it: no transaction yet. */
  ghost predicate Initial(db: Db) {
    db.lock.None? && db.txs == map[] && db.log == [] && Increasing(db.snaps, db.nextId)
  }

  /** What a transaction that holds the lock knows is still true. */
  ghost predicate Knows(db: Db, tx: Tx) {
    match tx.phase
    case Updated(row) => row == Apply(db.row, tx.patch)
    case Checked(row, latest) => row == Apply(db.row, tx.patch) && latest == Latest(db.snaps) && tx.patch.snapshot.Some?
    case Inserted(row, snap) =>
      && row == Apply(db.row, tx.patch) && tx.patch.snapshot == Some(snap.content)
      && !Conflicts(tx.patch.base, Latest(db.snaps))
      && snap.id < db.nextId && forall i :: 0 <= i < |db.snaps| ==> db.snaps[i].id < snap.id
    case _ => true
  }

  // ----- the atomic specification

  /** The committed data alone. */
  datatype Data = Data(row: Row, snaps: seq<Snap>)

  /** A PATCH executed at once, with the id its snapshot row gets. */
  function Atomic(d: Data, e: Entry): Data {
    Data(Apply(d.row, e.patch),
         match (e.patch.snapshot, e.revision)
         case (Some(c), Some(id)) => d.snaps + [Snap(id, c)]
         case _ => d.snaps)
  }

  /** A PATCH that may commit on `d`: its base is current and its id is new and larger. */
  ghost predicate Fitting(d: Data, e: Entry) {
    && (e.revision.Some? <==> e.patch.snapshot.Some?)
    && (e.patch.snapshot.Some? ==> !Conflicts(e.patch.base, Latest(d.snaps)))
    && (e.revision.Some? ==> forall i :: 0 <= i < |d.snaps| ==> d.snaps[i].id < e.revision.value)
  }

  /** The data after the first `k` commits, each executed at once. */
  function Replay(d: Data, log: seq<Entry>, k: nat): Data
    requires k <= |log|
  {
    if k == 0 then d else Atomic(Replay(d, log, k - 1), log[k - 1])
  }

  ghost predicate FitsAt(d: Data, log: seq<Entry>, k: nat)
    requires k < |log|
  {
    Fitting(Replay(d, log, k), log[k])
  }

  ghost predicate Serial(d: Data, log: seq<Entry>) {
    forall k :: 0 <= k < |log| ==> FitsAt(d, log, k)
  }

  // ----- every interleaving refines the serial execution

  ghost predicate LockIsExclusive(db: Db) {
    && (db.lock.Some? ==> db.lock.value in db.txs)
    && (forall t :: t in db.txs && HoldsLock(db.txs[t].phase) ==> db.lock == Some(t))
  }

  ghost predicate IsLogged(db: Db, t: int) {
    exists k :: 0 <= k < |db.log| && db.log[k].tx == t
  }

  /** The log holds the committed transactions, all of them and each once. */
  ghost predicate LogIsExact(db: Db) {
    && (forall k :: 0 <= k < |db.log| ==>
          db.log[k].tx in db.txs && db.txs[db.log[k].tx] == Tx(db.log[k].patch, Committed(db.log[k].revision)))
    && (forall t :: t in db.txs && db.txs[t].phase.Committed? ==> IsLogged(db, t))
    && (forall j, k :: 0 <= j < k < |db.log| ==> db.log[j].tx != db.log[k].tx)
  }

  ghost predicate Inv(d0: Data, db: Db) {
    && Increasing(db.snaps, db.nextId)
    && LockIsExclusive(db)
    && (forall t :: t in db.txs ==> Knows(db, db.txs[t]))
    && Data(db.row, db.snaps) == Replay(d0, db.log, |db.log|)
    && Serial(d0, db.log)
    && LogIsExact(db)
  }

  lemma {:induction false} CommitIsFitting(db: Db, t: int)
    requires Enabled(db, Commit(t)) && Knows(db, db.txs[t])
    ensures var e := Next(db, Commit(t)).log[|db.log|];
      Fitting(Data(db.row, db.snaps), e)
      && Data(Next(db, Commit(t)).row, Next(db, Commit(t)).snaps) == Atomic(Data(db.row, db.snaps), e)
  {
    assert db.snaps + [] == db.snaps;
  }

  lemma {:induction false} ReplaySnoc(d0: Data, log: seq<Entry>, e: Entry, k: nat)
    requires k <= |log|
    ensures Replay(d0, log + [e], k) == Replay(d0, log, k)
  {
    if k > 0 {
      var last := k - 1;
      ReplaySnoc(d0, log, e, last);
      assert (log + [e])[last] == log[last];
    }
  }

  lemma {:induction false} SerialSnoc(d0: Data, log: seq<Entry>, e: Entry)
    requires Serial(d0, log) && Fitting(Replay(d0, log, |log|), e)
    ensures Serial(d0, log + [e])
    ensures Replay(d0, log + [e], |log| + 1) == Atomic(Replay(d0, log, |log|), e)
  {
    forall k | 0 <= k < |log + [e]|
      ensures FitsAt(d0, log + [e], k)
    {
      ReplaySnoc(d0, log, e, k);
      assert k < |log| ==> FitsAt(d0, log, k);
    }
    ReplaySnoc(d0, log, e, |log|);
  }

  lemma {:induction false} CommitKeepsOrder(db: Db, t: int)
    requires Increasing(db.snaps, db.nextId) && Enabled(db, Commit(t)) && Knows(db, db.txs[t])
    ensures var db' := Next(db, Commit(t)); Increasing(db'.snaps, db'.nextId)
  {
  }

  lemma {:induction false} CommitKeepsData(d0: Data, db: Db, t: int)
    requires Data(db.row, db.snaps) == Replay(d0, db.log, |db.log|) && Serial(d0, db.log)
    requires Enabled(db, Commit(t)) && Knows(db, db.txs[t])
    ensures var db' := Next(db, Commit(t));
      Data(db'.row, db'.snaps) == Replay(d0, db'.log, |db'.log|) && Serial(d0, db'.log)
  {
    CommitIsFitting(db, t);
    SerialSnoc(d0, db.log, Next(db, Commit(t)).log[|db.log|]);
  }

  lemma {:induction false} CommitKeepsLocks(d0: Data, db: Db, t: int)
    requires Inv(d0, db) && Enabled(db, Commit(t))
    ensures var db' := Next(db, Commit(t));
      LockIsExclusive(db') && forall u :: u in db'.txs ==> Knows(db', db'.txs[u])
  {
    assert db.lock == Some(t);
    assert forall u :: u in db.txs && u != t ==> !HoldsLock(db.txs[u].phase);
  }

  lemma {:induction false} CommitKeepsLog(db: Db, t: int)
    requires LogIsExact(db) && Enabled(db, Commit(t))
    ensures LogIsExact(Next(db, Commit(t)))
  {
    var db' := Next(db, Commit(t));
    assert forall k :: 0 <= k < |db.log| ==> db'.log[k] == db.log[k];
    forall u | u in db'.txs && db'.txs[u].phase.Committed?
      ensures IsLogged(db', u)
    {
      if u == t {
        assert db'.log[|db.log|].tx == t;
      } else {
        assert IsLogged(db, u);
      }
    }
  }

  lemma {:induction false} StepKeepsInv(d0: Data, db: Db, a: Action)
    requires Inv(d0, db) && Enabled(db, a)
    ensures Inv(d0, Next(db, a))
  {
    match a
    case Commit(t) =>
      CommitKeepsOrder(db, t);
      CommitKeepsData(d0, db, t);
      CommitKeepsLocks(d0, db, t);
      CommitKeepsLog(db, t);
    case _ =>
      QuietStepKeepsInv(d0, db, a);
  }

  lemma {:induction false} QuietStepKeepsInv(d0: Data, db: Db, a: Action)
    requires Inv(d0, db) && Enabled(db, a) && !a.Commit?
    ensures Inv(d0, Next(db, a))
  {
    QuietStepKeepsData(db, a);
    QuietStepKeepsLock(db, a);
    QuietStepKeepsKnowledge(db, a);
    QuietStepKeepsLog(db, a);
  }

  lemma {:induction false} QuietStepKeepsData(db: Db, a: Action)
    requires Enabled(db, a) && !a.Commit?
    ensures var db' := Next(db, a);
      db'.row == db.row && db'.snaps == db.snaps && db'.log == db.log && db'.nextId >= db.nextId
  {
  }

  lemma {:induction false} QuietStepKeepsLock(db: Db, a: Action)
    requires LockIsExclusive(db) && Enabled(db, a) && !a.Commit?
    ensures LockIsExclusive(Next(db, a))
  {
  }

  lemma {:induction false} QuietStepKeepsKnowledge(db: Db, a: Action)
    requires LockIsExclusive(db) && Increasing(db.snaps, db.nextId) && Enabled(db, a) && !a.Commit?
    requires forall t :: t in db.txs ==> Knows(db, db.txs[t])
    ensures forall t :: t in Next(db, a).txs ==> Knows(Next(db, a), Next(db, a).txs[t])
  {
    var db' := Next(db, a);
    QuietStepKeepsData(db, a);
    forall t | t in db'.txs
      ensures Knows(db', db'.txs[t])
    {
      if t in db.txs {
        assert Knows(db, db.txs[t]);
      }
    }
  }

  lemma {:induction false} QuietStepKeepsLog(db: Db, a: Action)
    requires LogIsExact(db) && Enabled(db, a) && !a.Commit?
    ensures LogIsExact(Next(db, a))
  {
    var db' := Next(db, a);
    forall t | t in db'.txs && db'.txs[t].phase.Committed?
      ensures IsLogged(db', t)
    {
      assert IsLogged(db, t);
    }
  }

  lemma {:induction false} RunKeepsInv(d0: Data, db: Db, run: seq<Action>)
    requires Inv(d0, db) && Legal(db, run)
    ensures Inv(d0, After(db, run))
    decreases |run|
  {
    if run != [] {
      StepKeepsInv(d0, db, run[0]);
      RunKeepsInv(d0, Next(db, run[0]), run[1..]);
    }
  }

  // ----- no lost update

  predicate Writes(e: Entry) {
    e.patch.snapshot.Some?
  }

  /** The base that names the newest of the first `n` snapshots. */
  function BaseAfter(snaps: seq<Snap>, n: nat): Base
    requires n <= |snaps|
  {
    if n == 0 then NoSnapshot else At(snaps[n - 1].id)
  }

  /** The snapshots of a replayed prefix stay, in place, in every later state. */
  lemma {:induction false} ReplayGrows(d0: Data, log: seq<Entry>, j: nat, k: nat)
    requires j <= k <= |log|
    ensures Replay(d0, log, j).snaps <= Replay(d0, log, k).snaps
    decreases k
  {
    if j < k {
      ReplayGrows(d0, log, j, k - 1);
    }
  }

  lemma {:induction false} FittingAppends(d: Data, e: Entry)
    requires Fitting(d, e) && Writes(e)
    ensures e.revision.Some?
    ensures Atomic(d, e).snaps == d.snaps + [Snap(e.revision.value, e.patch.snapshot.value)]
    ensures e.patch.base.Unstated? || e.patch.base == BaseAfter(d.snaps, |d.snaps|)
  {
  }

  /** Where the snapshot of the commit at `k` ends up in the table. */
  function PlaceOf(d0: Data, log: seq<Entry>, k: nat): nat
    requires k < |log|
  {
    |Replay(d0, log, k).snaps|
  }

  /** The row at `i` holds this write, and a stated base names the row just before it. */
  ghost predicate SitsAt(snaps: seq<Snap>, p: Patch, revision: Option<int>, i: nat) {
    && i < |snaps| && p.snapshot.Some? && revision == Some(snaps[i].id)
    && snaps[i].content == p.snapshot.value
    && (p.base.Unstated? || p.base == BaseAfter(snaps, i))
  }

  lemma {:induction false} WriteSits(d0: Data, log: seq<Entry>, k: nat)
    requires Serial(d0, log) && k < |log| && Writes(log[k])
    ensures SitsAt(Replay(d0, log, |log|).snaps, log[k].patch, log[k].revision, PlaceOf(d0, log, k))
  {
    var before := Replay(d0, log, k);
    assert FitsAt(d0, log, k);
    FittingAppends(before, log[k]);
    ReplayGrows(d0, log, k + 1, |log|);
  }

  lemma {:induction false} PlacesIncrease(d0: Data, log: seq<Entry>, j: nat, k: nat)
    requires Serial(d0, log) && j < k < |log| && Writes(log[j])
    ensures PlaceOf(d0, log, j) < PlaceOf(d0, log, k)
  {
    assert FitsAt(d0, log, j);
    FittingAppends(Replay(d0, log, j), log[j]);
    ReplayGrows(d0, log, j + 1, k);
  }

  predicate CommittedWrite(db: Db, t: int) {
    t in db.txs && db.txs[t].phase.Committed? && db.txs[t].patch.snapshot.Some?
  }

  /** The write of transaction `t` is the row at `i`, directly on top of a stated base. */
  ghost predicate WroteAt(db: Db, t: int, i: nat)
    requires CommittedWrite(db, t)
  {
    SitsAt(db.snaps, db.txs[t].patch, db.txs[t].phase.revision, i)
  }

  /** Every committed write is in the table, on top of the base it states. */
  ghost predicate WritesSurvive(db: Db) {
    forall t :: CommittedWrite(db, t) ==> exists i :: WroteAt(db, t, i)
  }

  /** Two committed writes have different rows; stating the same base, they never both commit. */
  ghost predicate BasesAreUsedOnce(db: Db) {
    forall t, u :: CommittedWrite(db, t) && CommittedWrite(db, u) && t != u ==>
      && db.txs[t].phase.revision != db.txs[u].phase.revision
      && (db.txs[t].patch.base != db.txs[u].patch.base || db.txs[t].patch.base.Unstated?)
  }

  ghost predicate RevisionsIncrease(log: seq<Entry>) {
    forall j, k :: 0 <= j < k < |log| && log[j].revision.Some? && log[k].revision.Some? ==>
      log[j].revision.value < log[k].revision.value
  }

  lemma {:induction false} LogPlaces(d0: Data, db: Db, t: int) returns (k: nat)
    requires Inv(d0, db) && CommittedWrite(db, t)
    ensures k < |db.log| && db.log[k].tx == t && Writes(db.log[k])
    ensures WroteAt(db, t, PlaceOf(d0, db.log, k))
  {
    assert IsLogged(db, t);
    k :| 0 <= k < |db.log| && db.log[k].tx == t;
    WriteSits(d0, db.log, k);
  }

  lemma {:induction false} CommittedWritesSurvive(d0: Data, db: Db)
    requires Inv(d0, db)
    ensures WritesSurvive(db)
  {
    forall t | CommittedWrite(db, t)
      ensures exists i :: WroteAt(db, t, i)
    {
      var k := LogPlaces(d0, db, t);
    }
  }

  lemma {:induction false} DifferentRows(
    snaps: seq<Snap>, bound: int, p: Patch, r: Option<int>, i: nat, q: Patch, s: Option<int>, j: nat)
    requires Increasing(snaps, bound) && SitsAt(snaps, p, r, i) && SitsAt(snaps, q, s, j) && i < j
    ensures r.Some? && s.Some? && r.value < s.value && (p.base != q.base || p.base.Unstated?)
  {
  }

  lemma {:induction false} CommittedBasesDiffer(d0: Data, db: Db)
    requires Inv(d0, db)
    ensures BasesAreUsedOnce(db)
  {
    forall t, u | CommittedWrite(db, t) && CommittedWrite(db, u) && t != u
      ensures db.txs[t].phase.revision != db.txs[u].phase.revision
      ensures db.txs[t].patch.base != db.txs[u].patch.base || db.txs[t].patch.base.Unstated?
    {
      var j := LogPlaces(d0, db, t);
      var k := LogPlaces(d0, db, u);
      var a, b := db.txs[t], db.txs[u];
      var x, y := PlaceOf(d0, db.log, j), PlaceOf(d0, db.log, k);
      if j < k {
        PlacesIncrease(d0, db.log, j, k);
        DifferentRows(db.snaps, db.nextId, a.patch, a.phase.revision, x, b.patch, b.phase.revision, y);
      } else {
        PlacesIncrease(d0, db.log, k, j);
        DifferentRows(db.snaps, db.nextId, b.patch, b.phase.revision, y, a.patch, a.phase.revision, x);
      }
    }
  }

  lemma {:induction false} LoggedRevisionsIncrease(d0: Data, db: Db)
    requires Inv(d0, db)
    ensures RevisionsIncrease(db.log)
  {
    var log := db.log;
    forall j, k | 0 <= j < k < |log| && log[j].revision.Some? && log[k].revision.Some?
      ensures log[j].revision.value < log[k].revision.value
    {
      assert FitsAt(d0, log, j) && FitsAt(d0, log, k);
      WriteSits(d0, log, j);
      WriteSits(d0, log, k);
      PlacesIncrease(d0, log, j, k);
      DifferentRows(db.snaps, db.nextId, log[j].patch, log[j].revision, PlaceOf(d0, log, j),
                    log[k].patch, log[k].revision, PlaceOf(d0, log, k));
    }
  }

  /**
   Under every interleaving: the log is exactly the committed PATCHes and the committed
   data is their serial execution; every committed write is in the table, directly on
   top of the base it states; revisions increase in commit order; and two writes that
   state the same base never both commit.
   */
  lemma {:induction false} NoUpdateIsLost(db: Db, run: seq<Action>)
    requires Initial(db) && Legal(db, run)
    ensures var after := After(db, run);
      && LogIsExact(after)
      && Data(after.row, after.snaps) == Replay(Data(db.row, db.snaps), after.log, |after.log|)
      && WritesSurvive(after) && BasesAreUsedOnce(after) && RevisionsIncrease(after.log)
      && Increasing(after.snaps, after.nextId)
  {
    var d0 := Data(db.row, db.snaps);
    assert Inv(d0, db);
    RunKeepsInv(d0, db, run);
    CommittedWritesSurvive(d0, After(db, run));
    CommittedBasesDiffer(d0, After(db, run));
    LoggedRevisionsIncrease(d0, After(db, run));
  }

  // ----- the row is what the last PATCH that says so made it

  function Title(p: Patch): Option<string> {
    p.title
  }

  function ThreadId(p: Patch): Option<Option<string>> {
    p.threadId
  }

  /** The value was stated by one of the first `k` commits and by none after it, or was there from the start. */
  ghost predicate LastStated<T>(log: seq<Entry>, k: nat, stated: Patch -> Option<T>, start: T, value: T)
    requires k <= |log|
  {
    || (value == start && forall j :: 0 <= j < k ==> stated(log[j].patch).None?)
    || (exists i :: 0 <= i < k && stated(log[i].patch) == Some(value)
                 && forall j :: i < j < k ==> stated(log[j].patch).None?)
  }

  lemma {:induction false} OneMoreStated<T>(
    log: seq<Entry>, k: nat, stated: Patch -> Option<T>, start: T, before: T, value: T)
    requires k < |log| && LastStated(log, k, stated, start, before)
    requires value == match stated(log[k].patch) { case Some(v) => v case None => before }
    ensures LastStated(log, k + 1, stated, start, value)
  {
  }

  lemma {:induction false} ReplayedRow(d0: Data, log: seq<Entry>, k: nat)
    requires k <= |log|
    ensures LastStated(log, k, Title, d0.row.title, Replay(d0, log, k).row.title)
    ensures LastStated(log, k, ThreadId, d0.row.threadId, Replay(d0, log, k).row.threadId)
  {
    if k > 0 {
      var last := k - 1;
      ReplayedRow(d0, log, last);
      var before, after := Replay(d0, log, last).row, Replay(d0, log, k).row;
      OneMoreStated(log, last, Title, d0.row.title, before.title, after.title);
      OneMoreStated(log, last, ThreadId, d0.row.threadId, before.threadId, after.threadId);
    }
  }

  lemma {:induction false} RowIsLogged(d0: Data, log: seq<Entry>, k: nat, i: nat) returns (j: nat)
    requires Serial(d0, log) && k <= |log| && |d0.snaps| <= i < |Replay(d0, log, k).snaps|
    ensures j < k && Writes(log[j]) && PlaceOf(d0, log, j) == i
  {
    var last := k - 1;
    if i < |Replay(d0, log, last).snaps| {
      j := RowIsLogged(d0, log, last, i);
    } else {
      assert FitsAt(d0, log, last);
      j := last;
    }
  }

  ghost predicate RowIsWritten(db: Db, i: nat) {
    exists t :: CommittedWrite(db, t) && WroteAt(db, t, i)
  }

  lemma {:induction false} NewRowIsWritten(d0: Data, db: Db, i: nat)
    requires Inv(d0, db) && |d0.snaps| <= i < |db.snaps|
    ensures RowIsWritten(db, i)
  {
    var j := RowIsLogged(d0, db.log, |db.log|, i);
    WriteSits(d0, db.log, j);
    assert WroteAt(db, db.log[j].tx, i);
  }

  /**
   Under every interleaving: title and thread id are those the last committed PATCH that
   gives the field stated, or the ones from the start; and every snapshot row beyond the
   ones from the start was written by a committed PATCH, so refused and aborted ones leave none.
   */
  lemma {:induction false} DataIsWhatWasStated(db: Db, run: seq<Action>)
    requires Initial(db) && Legal(db, run)
    ensures var after := After(db, run);
      && LogIsExact(after)
      && LastStated(after.log, |after.log|, Title, db.row.title, after.row.title)
      && LastStated(after.log, |after.log|, ThreadId, db.row.threadId, after.row.threadId)
      && db.snaps <= after.snaps
      && forall i :: |db.snaps| <= i < |after.snaps| ==> RowIsWritten(after, i)
  {
    var d0 := Data(db.row, db.snaps);
    var after := After(db, run);
    RunKeepsInv(d0, db, run);
    ReplayedRow(d0, after.log, |after.log|);
    ReplayGrows(d0, after.log, 0, |after.log|);
    forall i | |db.snaps| <= i < |after.snaps|
      ensures RowIsWritten(after, i)
    {
      NewRowIsWritten(d0, after, i);
    }
  }

  /** In every reachable state a refused PATCH answers with the current revision and changes no committed data. */
  lemma {:induction false} RefusalChangesNothing(db: Db, run: seq<Action>, t: int)
    requires Initial(db) && Legal(db, run) && Enabled(After(db, run), Refuse(t))
    ensures var before := After(db, run);
      var after := Next(before, Refuse(t));
      && after.row == before.row && after.snaps == before.snaps && after.log == before.log
      && after.txs[t].phase == Conflicted(Latest(before.snaps)) && after.lock.None?
  {
    var d0 := Data(db.row, db.snaps);
    assert Inv(d0, db);
    RunKeepsInv(d0, db, run);
    assert Knows(After(db, run), After(db, run).txs[t]);
  }

  /** An update based on the revision a reader was given is not refused while that stays current. */
  lemma {:induction false} CurrentBaseIsAccepted(snaps: seq<Snap>, base: Base)
    ensures Conflicts(base, Latest(snaps)) <==>
      match base { case Unstated => false case NoSnapshot => snaps != [] case At(r) => Latest(snaps) != Some(r) }
  {
  }
}
