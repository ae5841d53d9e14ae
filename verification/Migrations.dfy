/**
  The versioned migration runner (crates/keycompute-db/src/migrations.rs).

  `Decide` is what one transaction concludes from the history it read.  The class
  `SchemaDatabase` runs the loop of one runner; `System` interleaves any number of
  runners, each with its own transaction, around one advisory lock.
 */
module Migrations {
  import opened Common

  datatype Migration = Migration(version: int, name: string, sql: string)

  datatype Row = Row(version: int, name: string, checksum: string)

  datatype SchemaError =
    | NonEmptyWithoutHistory
    | NonContiguous(expected: int, found: int)
    | UnknownVersion(version: int)
    | ChecksumMismatch(version: int)
    | DatabaseFailure

  datatype Decision = Apply(migration: Migration) | Complete | Reject(error: SchemaError)

  /** The digest of a migration's text is a parameter: any function of the text. */
  type Digest = string -> string

  function RowOf(digest: Digest, m: Migration): Row {
    Row(m.version, m.name, digest(m.sql))
  }

  /** Versions are 1, 2, ... in list order. */
  predicate Contiguous(ms: seq<Migration>) {
    forall i :: 0 <= i < |ms| ==> ms[i].version == i + 1
  }

  function FindVersion(ms: seq<Migration>, version: int): Option<Migration> {
    if ms == [] then None
    else if ms[0].version == version then Some(ms[0])
    else FindVersion(ms[1..], version)
  }

  predicate HasVersion(rows: seq<Row>, version: int) {
    exists i :: 0 <= i < |rows| && rows[i].version == version
  }

  function FirstMissing(ms: seq<Migration>, rows: seq<Row>): Option<Migration> {
    if ms == [] then None
    else if !HasVersion(rows, ms[0].version) then Some(ms[0])
    else FirstMissing(ms[1..], rows)
  }

  /** The first row, from index i on, whose version is not its position. */
  function FirstGap(rows: seq<Row>, i: nat): Option<SchemaError>
    requires i <= |rows|
    decreases |rows| - i
  {
    if i == |rows| then None
    else if rows[i].version != i + 1 then Some(NonContiguous(i + 1, rows[i].version))
    else FirstGap(rows, i + 1)
  }

  /** The first row, from index i on, that the binary does not know or knows differently. */
  function FirstForeign(ms: seq<Migration>, digest: Digest, rows: seq<Row>, i: nat): Option<SchemaError>
    requires i <= |rows|
    decreases |rows| - i
  {
    if i == |rows| then None
    else
      match FindVersion(ms, rows[i].version)
      case None => Some(UnknownVersion(rows[i].version))
      case Some(m) =>
        if rows[i].checksum != digest(m.sql) then Some(ChecksumMismatch(rows[i].version))
        else FirstForeign(ms, digest, rows, i + 1)
  }

  function Decide(ms: seq<Migration>, digest: Digest, rows: seq<Row>, appTables: bool): Decision {
    if rows == [] && appTables then Reject(NonEmptyWithoutHistory)
    else if FirstGap(rows, 0).Some? then Reject(FirstGap(rows, 0).value)
    else if FirstForeign(ms, digest, rows, 0).Some? then Reject(FirstForeign(ms, digest, rows, 0).value)
    else if FirstMissing(ms, rows).Some? then Apply(FirstMissing(ms, rows).value)
    else Complete
  }

  /** The history records exactly the first migrations, in order and with their digests. */
  predicate Matches(ms: seq<Migration>, digest: Digest, rows: seq<Row>) {
    && |rows| <= |ms|
    && forall i :: 0 <= i < |rows| ==> rows[i].version == ms[i].version && rows[i].checksum == digest(ms[i].sql)
  }

  // ---- What a decision means ------------------------------------------------

  lemma {:induction false} FindVersionAt(ms: seq<Migration>, first: int, version: int)
    requires forall i :: 0 <= i < |ms| ==> ms[i].version == first + i
    ensures FindVersion(ms, version) == if first <= version < first + |ms| then Some(ms[version - first]) else None
  {
    if ms != [] && ms[0].version != version {
      FindVersionAt(ms[1..], first + 1, version);
    }
  }

  lemma {:induction false} GapFree(rows: seq<Row>, i: nat)
    requires i <= |rows|
    ensures FirstGap(rows, i).None? <==> forall j :: i <= j < |rows| ==> rows[j].version == j + 1
    decreases |rows| - i
  {
    if i < |rows| {
      GapFree(rows, i + 1);
    }
  }

  predicate KnownAt(ms: seq<Migration>, digest: Digest, row: Row, j: nat) {
    j < |ms| && row.checksum == digest(ms[j].sql)
  }

  lemma {:induction false} ForeignFree(ms: seq<Migration>, digest: Digest, rows: seq<Row>, i: nat)
    requires Contiguous(ms) && i <= |rows|
    requires forall j :: 0 <= j < |rows| ==> rows[j].version == j + 1
    ensures FirstForeign(ms, digest, rows, i).None?
       <==> forall j :: i <= j < |rows| ==> KnownAt(ms, digest, rows[j], j)
    decreases |rows| - i
  {
    if i < |rows| {
      ForeignFree(ms, digest, rows, i + 1);
      FindVersionAt(ms, 1, rows[i].version);
      assert rows[i].version == i + 1;
      assert FirstForeign(ms, digest, rows, i).None?
          <==> KnownAt(ms, digest, rows[i], i) && FirstForeign(ms, digest, rows, i + 1).None?;
    }
  }

  lemma {:induction false} MissingAfterPrefix(ms: seq<Migration>, rows: seq<Row>, from: nat)
    requires from <= |ms| && |rows| <= |ms| && Contiguous(ms)
    requires forall j :: 0 <= j < |rows| ==> rows[j].version == j + 1
    ensures from <= |rows| ==> FirstMissing(ms[from..], rows) == if |rows| < |ms| then Some(ms[|rows|]) else None
    decreases |ms| - from
  {
    if from < |rows| {
      assert rows[from].version == ms[from].version;
      assert HasVersion(rows, ms[from..][0].version);
      assert ms[from..][1..] == ms[from + 1..];
      MissingAfterPrefix(ms, rows, from + 1);
    } else if from == |rows| < |ms| {
      assert ms[from..][0] == ms[from];
      assert !HasVersion(rows, ms[from].version);
    }
  }

  /**
    A runner goes on exactly when the history is a checksum-matching prefix of its
    list (and an empty history means an empty database); it then applies the very
    next migration, and reports completion exactly when none is left.
   */
  lemma DecisionMeaning(ms: seq<Migration>, digest: Digest, rows: seq<Row>, appTables: bool)
    requires Contiguous(ms)
    ensures !Decide(ms, digest, rows, appTables).Reject? <==> Matches(ms, digest, rows) && !(rows == [] && appTables)
    ensures !Decide(ms, digest, rows, appTables).Reject? ==>
              Decide(ms, digest, rows, appTables) == if |rows| < |ms| then Apply(ms[|rows|]) else Complete
  {
    GapFree(rows, 0);
    if FirstGap(rows, 0).None? {
      ForeignFree(ms, digest, rows, 0);
      if FirstForeign(ms, digest, rows, 0).None? {
        assert |rows| > 0 ==> KnownAt(ms, digest, rows[|rows| - 1], |rows| - 1);
        MissingAfterPrefix(ms, rows, 0);
        assert ms[0..] == ms;
      }
    }
  }

  /** Row k is the first whose version is not its position, and the error names both. */
  predicate GapAt(rows: seq<Row>, k: int, e: SchemaError) {
    && 0 <= k < |rows| && rows[k].version != k + 1 && (forall j :: 0 <= j < k ==> rows[j].version == j + 1)
    && e == NonContiguous(k + 1, rows[k].version)
  }

  /** Versions are in order, and row k is the first that the list lacks or has with other text. */
  predicate ForeignAt(ms: seq<Migration>, digest: Digest, rows: seq<Row>, k: int, e: SchemaError) {
    && 0 <= k < |rows| && (forall j :: 0 <= j < |rows| ==> rows[j].version == j + 1)
    && (forall j :: 0 <= j < k ==> KnownAt(ms, digest, rows[j], j)) && !KnownAt(ms, digest, rows[k], k)
    && e == if k < |ms| then ChecksumMismatch(k + 1) else UnknownVersion(k + 1)
  }

  /** Why a history is rejected: the first thing wrong with it. */
  ghost predicate Reason(ms: seq<Migration>, digest: Digest, rows: seq<Row>, appTables: bool, e: SchemaError) {
    || (rows == [] && appTables && e == NonEmptyWithoutHistory)
    || (exists k :: GapAt(rows, k, e))
    || (exists k :: ForeignAt(ms, digest, rows, k, e))
  }

  lemma {:induction false} FirstGapIs(rows: seq<Row>, i: nat) returns (k: nat)
    requires i <= |rows| && FirstGap(rows, i).Some? && forall j :: 0 <= j < i ==> rows[j].version == j + 1
    ensures GapAt(rows, k, FirstGap(rows, i).value)
    decreases |rows| - i
  {
    if rows[i].version != i + 1 {
      k := i;
    } else {
      k := FirstGapIs(rows, i + 1);
    }
  }

  lemma {:induction false} FirstForeignIs(ms: seq<Migration>, digest: Digest, rows: seq<Row>, i: nat) returns (k: nat)
    requires Contiguous(ms) && i <= |rows| && FirstForeign(ms, digest, rows, i).Some?
    requires forall j :: 0 <= j < |rows| ==> rows[j].version == j + 1
    requires forall j :: 0 <= j < i ==> KnownAt(ms, digest, rows[j], j)
    ensures ForeignAt(ms, digest, rows, k, FirstForeign(ms, digest, rows, i).value)
    decreases |rows| - i
  {
    FindVersionAt(ms, 1, rows[i].version);
    if KnownAt(ms, digest, rows[i], i) {
      k := FirstForeignIs(ms, digest, rows, i + 1);
    } else {
      k := i;
    }
  }

  /** At most one thing is the first that is wrong. */
  lemma ReasonIsUnique(ms: seq<Migration>, digest: Digest, rows: seq<Row>, appTables: bool, e: SchemaError, e': SchemaError)
    requires Reason(ms, digest, rows, appTables, e) && Reason(ms, digest, rows, appTables, e')
    ensures e == e'
  {
    if rows != [] {
      if k :| GapAt(rows, k, e) {
        var k' :| GapAt(rows, k', e');
        assert k == k';
      } else {
        var k, k' :| ForeignAt(ms, digest, rows, k, e) && ForeignAt(ms, digest, rows, k', e');
        assert k == k';
      }
    }
  }

  /** A history is rejected with an error exactly if that error names the first thing wrong with it. */
  lemma RejectionMeaning(ms: seq<Migration>, digest: Digest, rows: seq<Row>, appTables: bool, e: SchemaError)
    requires Contiguous(ms)
    ensures Decide(ms, digest, rows, appTables) == Reject(e) <==> Reason(ms, digest, rows, appTables, e)
  {
    RejectionHasReason(ms, digest, rows, appTables);
    if Reason(ms, digest, rows, appTables, e) {
      ReasonMeansRejection(ms, digest, rows, appTables, e);
      ReasonIsUnique(ms, digest, rows, appTables, e, Decide(ms, digest, rows, appTables).error);
    }
  }

  lemma RejectionHasReason(ms: seq<Migration>, digest: Digest, rows: seq<Row>, appTables: bool)
    requires Contiguous(ms)
    ensures Decide(ms, digest, rows, appTables).Reject? ==>
              Reason(ms, digest, rows, appTables, Decide(ms, digest, rows, appTables).error)
  {
    GapFree(rows, 0);
    if rows != [] && FirstGap(rows, 0).Some? {
      var k := FirstGapIs(rows, 0);
    } else if rows != [] && FirstForeign(ms, digest, rows, 0).Some? {
      var k := FirstForeignIs(ms, digest, rows, 0);
    }
  }

  lemma ReasonMeansRejection(ms: seq<Migration>, digest: Digest, rows: seq<Row>, appTables: bool, e: SchemaError)
    requires Contiguous(ms) && Reason(ms, digest, rows, appTables, e)
    ensures Decide(ms, digest, rows, appTables).Reject?
  {
    DecisionMeaning(ms, digest, rows, appTables);
    if Matches(ms, digest, rows) {
      assert forall j :: 0 <= j < |rows| ==> rows[j].version == j + 1 && KnownAt(ms, digest, rows[j], j);
    }
  }

  // ---- One runner -----------------------------------------------------------

  /** The table has `version` as its primary key and is read in version order. */
  function InsertRow(rows: seq<Row>, row: Row): seq<Row> {
    if rows == [] then [row]
    else if row.version < rows[0].version then [row] + rows
    else [rows[0]] + InsertRow(rows[1..], row)
  }

  lemma {:induction false} InsertLast(rows: seq<Row>, row: Row)
    requires forall i :: 0 <= i < |rows| ==> rows[i].version < row.version
    ensures InsertRow(rows, row) == rows + [row]
  {
    if rows != [] {
      InsertLast(rows[1..], row);
      assert rows == [rows[0]] + rows[1..];
    }
  }

  lemma PrefixGrows(ms: seq<Migration>, digest: Digest, rows: seq<Row>, row: Row)
    requires Contiguous(ms) && Matches(ms, digest, rows) && |rows| < |ms|
    requires row == RowOf(digest, ms[|rows|])
    ensures InsertRow(rows, row) == rows + [row]
    ensures Matches(ms, digest, rows + [row])
  {
    InsertLast(rows, row);
  }

  /**
    What can happen to a transaction from outside: nothing, a failed statement, a commit
    that fails, or one that takes effect while its acknowledgement is lost.
   */
  datatype Weather = Fine | StatementFails | CommitFails | AckLost

  /** The history only grew, and each added row had its migration take effect once, in order. */
  predicate Advance(ms: seq<Migration>, h: seq<Row>, e: seq<Migration>, h': seq<Row>, e': seq<Migration>) {
    && h <= h'
    && (|h| < |h'| ==> |h'| <= |ms|)
    && e' == e + if |h| < |h'| then ms[|h|..|h'|] else []
  }

  lemma AdvanceTwice(ms: seq<Migration>, h: seq<Row>, e: seq<Migration>, h': seq<Row>, e': seq<Migration>,
                     h'': seq<Row>, e'': seq<Migration>)
    requires Advance(ms, h, e, h', e') && Advance(ms, h', e', h'', e'')
    ensures Advance(ms, h, e, h'', e'')
  {
    if |h| < |h'| && |h'| < |h''| {
      assert ms[|h|..|h'|] + ms[|h'|..|h''|] == ms[|h|..|h''|];
    }
  }

  lemma AdvanceByOne(ms: seq<Migration>, h: seq<Row>, e: seq<Migration>, row: Row)
    requires |h| < |ms|
    ensures Advance(ms, h, e, h + [row], e + [ms[|h|]])
  {
    assert ms[|h|..|h| + 1] == [ms[|h|]];
  }

  /** A history to go on from; anything else makes every runner give up. */
  predicate SoundHistory(ms: seq<Migration>, digest: Digest, h: seq<Row>, tables: bool) {
    Matches(ms, digest, h) && !(h == [] && tables)
  }

  class SchemaDatabase {
    var history: seq<Row>
    var appTables: bool
    /** Migrations whose text has taken effect, in order. */
    ghost var effects: seq<Migration>

    predicate Sound(ms: seq<Migration>, digest: Digest)
      reads this
    {
      SoundHistory(ms, digest, history, appTables)
    }

    twostate predicate Advanced(ms: seq<Migration>)
      reads this
    {
      Advance(ms, old(history), old(effects), history, effects)
    }

    constructor ()
      ensures history == [] && effects == [] && !appTables
    {
      history, appTables, effects := [], false, [];
    }

    /** The reading half of a step: three passes over the applied rows. */
    method Inspect(ms: seq<Migration>, digest: Digest) returns (d: Decision)
      ensures d == Decide(ms, digest, history, appTables)
    {
      var applied := history;
      if |applied| == 0 && appTables {
        return Reject(NonEmptyWithoutHistory);
      }
      var i := 0;
      while i < |applied|
        invariant 0 <= i <= |applied| && FirstGap(applied, 0) == FirstGap(applied, i)
      {
        if applied[i].version != i + 1 {
          return Reject(NonContiguous(i + 1, applied[i].version));
        }
        i := i + 1;
      }
      i := 0;
      while i < |applied|
        invariant 0 <= i <= |applied| && FirstForeign(ms, digest, applied, 0) == FirstForeign(ms, digest, applied, i)
      {
        var known := FindVersion(ms, applied[i].version);
        if known.None? {
          return Reject(UnknownVersion(applied[i].version));
        }
        if applied[i].checksum != digest(known.value.sql) {
          return Reject(ChecksumMismatch(applied[i].version));
        }
        i := i + 1;
      }
      i := 0;
      while i < |ms|
        invariant 0 <= i <= |ms| && FirstMissing(ms, applied) == FirstMissing(ms[i..], applied)
      {
        assert ms[i..][1..] == ms[i + 1..];
        if !HasVersion(applied, ms[i].version) {
          return Apply(ms[i]);
        }
        i := i + 1;
      }
      return Complete;
    }

    /** The next migration took effect with its row, or nothing was left to do. */
    twostate predicate SteppedOn(ms: seq<Migration>, digest: Digest)
      reads this
    {
      && Sound(ms, digest) && Advanced(ms)
      && (if |old(history)| < |ms|
          then var m := ms[|old(history)|]; history == old(history) + [Row(m.version, m.name, digest(m.sql))]
          else history == old(history))
    }

    /** The migration's text and its history row, inside the transaction. */
    method Execute(digest: Digest, m: Migration)
      modifies this
      ensures history == InsertRow(old(history), RowOf(digest, m)) && appTables && effects == old(effects) + [m]
    {
      appTables := true;
      history := InsertRow(history, RowOf(digest, m));
      effects := effects + [m];
    }

    /** One transaction: inspect, apply at most one migration, commit or roll back. */
    method RunMigrationStep(ms: seq<Migration>, digest: Digest, weather: Weather)
      returns (r: Result<Decision, SchemaError>)
      requires Contiguous(ms)
      modifies this
      ensures r.Ok? <==> weather.Fine? && old(Sound(ms, digest))
      ensures r.Ok? ==> SteppedOn(ms, digest)
      ensures r.Ok? ==> r.value == if |old(history)| < |ms| then Apply(ms[|old(history)|]) else Complete
      ensures r.Err? && (!weather.AckLost? || !old(Sound(ms, digest))) ==>
                history == old(history) && effects == old(effects) && appTables == old(appTables)
      // An error after a lost acknowledgement hides a step that took effect whole.
      ensures weather.AckLost? && old(Sound(ms, digest)) ==> r == Err(DatabaseFailure) && SteppedOn(ms, digest)
      // Any other error is the outside's, or names the first thing wrong with the history.
      ensures r.Err? && (weather.StatementFails? || old(Sound(ms, digest))) ==> r.error == DatabaseFailure
      ensures r.Err? && !weather.StatementFails? && !old(Sound(ms, digest)) ==>
                Reason(ms, digest, old(history), old(appTables), r.error)
    {
      if weather.StatementFails? {
        return Err(DatabaseFailure);
      }
      var before, tablesBefore := history, appTables;
      ghost var effectsBefore := effects;
      var d := InspectAndApply(ms, digest);
      if d.Reject? {
        return Err(d.error);
      }
      if weather.CommitFails? {
        history, appTables := before, tablesBefore;
        effects := effectsBefore;
        return Err(DatabaseFailure);
      }
      return if weather.AckLost? then Err(DatabaseFailure) else Ok(d);
    }

    /** The transaction up to its commit. */
    method InspectAndApply(ms: seq<Migration>, digest: Digest) returns (d: Decision)
      requires Contiguous(ms)
      modifies this
      ensures d.Reject? <==> !old(Sound(ms, digest))
      ensures d.Reject? ==> history == old(history) && effects == old(effects) && appTables == old(appTables)
      ensures d.Reject? ==> Reason(ms, digest, old(history), old(appTables), d.error)
      ensures !d.Reject? ==> SteppedOn(ms, digest)
      ensures !d.Reject? ==> d == if |old(history)| < |ms| then Apply(ms[|old(history)|]) else Complete
    {
      DecisionMeaning(ms, digest, history, appTables);
      RejectionHasReason(ms, digest, history, appTables);
      d := Inspect(ms, digest);
      if d.Apply? {
        PrefixGrows(ms, digest, history, RowOf(digest, d.migration));
        AdvanceByOne(ms, history, effects, RowOf(digest, d.migration));
        Execute(digest, d.migration);
      }
    }

    /** Transactions of other runners of the same list, between two of ours. */
    method OthersRun(ms: seq<Migration>, digest: Digest)
      requires Contiguous(ms)
      modifies this
      ensures Advanced(ms)
      ensures Sound(ms, digest) <==> old(Sound(ms, digest))
      ensures !old(Sound(ms, digest)) ==> history == old(history) && appTables == old(appTables)
    {
      var steps: nat :| 0 <= steps;
      while steps > 0
        invariant Advanced(ms)
        invariant Sound(ms, digest) <==> old(Sound(ms, digest))
        invariant !old(Sound(ms, digest)) ==> history == old(history) && appTables == old(appTables)
      {
        ghost var h, e := history, effects;
        var r := RunMigrationStep(ms, digest, Fine);
        if r.Ok? {
          AdvanceTwice(ms, old(history), old(effects), h, e, history, effects);
        }
        steps := steps - 1;
      }
    }

    /** The others, then one step of ours. */
    method OneRound(ms: seq<Migration>, digest: Digest, weather: Weather) returns (step: Result<Decision, SchemaError>)
      requires Contiguous(ms)
      modifies this
      ensures Advanced(ms)
      ensures Sound(ms, digest) <==> old(Sound(ms, digest))
      ensures !old(Sound(ms, digest)) ==> step.Err? && history == old(history) && appTables == old(appTables)
      ensures step.Err? ==> step.error == DatabaseFailure || Reason(ms, digest, old(history), old(appTables), step.error)
      ensures step.Err? && old(Sound(ms, digest)) ==> step.error == DatabaseFailure
      ensures step.Err? && weather.Fine? ==> !old(Sound(ms, digest))
      ensures step.Ok? ==> |history| <= |ms| && (step.value.Complete? ==> |history| == |ms|)
      ensures step.Ok? && !step.value.Complete? ==> |history| > |old(history)|
    {
      OthersRun(ms, digest);
      ghost var h, e := history, effects;
      step := RunMigrationStep(ms, digest, weather);
      if step.Ok? || history != h {
        AdvanceTwice(ms, old(history), old(effects), h, e, history, effects);
      }
    }

    /**
      The loop of one runner.  It ends for every list and every database, whatever the
      other runners do; it returns Ok only with the whole list applied, and an error only
      for a foreign history or a transaction that failed or seemed to.
     */
    method RunMigrations(ms: seq<Migration>, digest: Digest, weather: nat -> Weather)
      returns (r: Result<nat, SchemaError>)
      requires Contiguous(ms)
      modifies this
      ensures Advanced(ms)
      ensures r.Ok? ==> Sound(ms, digest) && |history| == |ms|
      ensures r.Ok? ==> effects == old(effects) + ms[|old(history)|..]
      ensures r.Err? ==> !old(Sound(ms, digest)) || exists k: nat :: k <= |ms| - |old(history)| && !weather(k).Fine?
      ensures !old(Sound(ms, digest)) ==> r.Err? && history == old(history)
      ensures r.Err? && old(Sound(ms, digest)) ==> r.error == DatabaseFailure
      ensures r.Err? && !old(Sound(ms, digest)) ==>
                r.error == DatabaseFailure || Reason(ms, digest, old(history), old(appTables), r.error)
      ensures r.Ok? ==> |old(history)| + r.value <= |ms|
    {
      var applied: nat := 0;
      while true
        invariant Advanced(ms)
        invariant Sound(ms, digest) <==> old(Sound(ms, digest))
        invariant !old(Sound(ms, digest)) ==> history == old(history) && appTables == old(appTables)
        invariant applied <= |history| - |old(history)|
        decreases |ms| - |history|
      {
        ghost var h, e := history, effects;
        var step := OneRound(ms, digest, weather(applied));
        AdvanceTwice(ms, old(history), old(effects), h, e, history, effects);
        if step.Err? {
          return Err(step.error);
        }
        if step.value.Complete? {
          return Ok(applied);
        }
        applied := applied + 1;
      }
    }
  }

  // ---- Any number of runners -------------------------------------------------

  /** Committed contents of the database. */
  datatype Db = Db(history: seq<Row>, appTables: bool, effects: seq<Migration>)

  /**
    Where a runner stands.  Everything from `Begun` to `Staged` is inside one
    transaction; `Read` has the rows it selected, `Staged` the migration it ran but
    has not committed.
   */
  datatype Runner =
    | Outside
    | Begun
    | Locked
    | Read(rows: seq<Row>, tables: bool)
    | Staged(m: Migration)
    | Finished
    | Returned(result: Result<(), SchemaError>)

  datatype System = System(db: Db, lock: Option<nat>, runners: seq<Runner>)

  datatype Event =
    | BeginTx(r: nat)
    | TakeLock(r: nat)
    | ReadHistory(r: nat)
    | Execute(r: nat)
    | Commit(r: nat)
    | LoseCommit(r: nat)   // the commit takes effect but its acknowledgement is lost
    | Abort(r: nat)        // any failure: the transaction rolls back and frees the lock

  predicate InTransaction(x: Runner) {
    x.Begun? || x.Locked? || x.Read? || x.Staged? || x.Finished?
  }

  predicate Can(s: System, e: Event) {
    && e.r < |s.runners|
    && match e
       case BeginTx(r) => s.runners[r].Outside?
       case TakeLock(r) => s.runners[r].Begun? && s.lock.None?
       case ReadHistory(r) => s.runners[r].Locked?
       case Execute(r) => s.runners[r].Read?
       case Commit(r) => s.runners[r].Staged? || s.runners[r].Finished?
       case LoseCommit(r) => s.runners[r].Staged? || s.runners[r].Finished?
       case Abort(r) => InTransaction(s.runners[r])
  }

  function Move(s: System, r: nat, x: Runner): System
    requires r < |s.runners|
  {
    s.(runners := s.runners[r := x])
  }

  function Unlock(s: System, r: nat): System {
    if s.lock == Some(r) then s.(lock := None) else s
  }

  /** The staged migration reaches the table as it is at commit time. */
  function Committed(digest: Digest, db: Db, m: Migration): Db {
    Db(InsertRow(db.history, RowOf(digest, m)), true, db.effects + [m])
  }

  function Happen(ms: seq<Migration>, digest: Digest, s: System, e: Event): System
    requires Can(s, e)
  {
    match e
    case BeginTx(r) => Move(s, r, Begun)
    case TakeLock(r) => Move(s, r, Locked).(lock := Some(r))
    case ReadHistory(r) => Move(s, r, Read(s.db.history, s.db.appTables))
    case Execute(r) =>
      (match Decide(ms, digest, s.runners[r].rows, s.runners[r].tables)
       case Apply(m) => Move(s, r, Staged(m))
       case Complete => Move(s, r, Finished)
       case Reject(error) => Unlock(Move(s, r, Returned(Err(error))), r))
    case Commit(r) =>
      if s.runners[r].Staged? then
        Unlock(Move(s, r, Outside).(db := Committed(digest, s.db, s.runners[r].m)), r)
      else Unlock(Move(s, r, Returned(Ok(()))), r)
    case LoseCommit(r) =>
      var s' := Unlock(Move(s, r, Returned(Err(DatabaseFailure))), r);
      if s.runners[r].Staged? then s'.(db := Committed(digest, s.db, s.runners[r].m)) else s'
    case Abort(r) => Unlock(Move(s, r, Returned(Err(DatabaseFailure))), r)
  }

  ghost predicate Next(ms: seq<Migration>, digest: Digest, s: System, s': System) {
    exists e :: Can(s, e) && s' == Happen(ms, digest, s, e)
  }

  /** State i of the sequence follows from the one before. */
  ghost predicate Linked(ms: seq<Migration>, digest: Digest, ss: seq<System>, i: nat)
    requires 0 < i < |ss|
  {
    Next(ms, digest, ss[i - 1], ss[i])
  }

  /** A run starts from any database whatever, with no runner at work yet. */
  ghost predicate AnyRun(ms: seq<Migration>, digest: Digest, ss: seq<System>) {
    && |ss| > 0
    && ss[0].lock.None?
    && (forall r :: 0 <= r < |ss[0].runners| ==> ss[0].runners[r].Outside?)
    && (forall i :: 0 < i < |ss| ==> Linked(ms, digest, ss, i))
  }

  /** A run from a fresh database, or one that an earlier binary left in order. */
  ghost predicate Run(ms: seq<Migration>, digest: Digest, ss: seq<System>) {
    AnyRun(ms, digest, ss) && InOrder(ms, digest, ss[0].db)
  }

  /** The history is a checksum-matching prefix and took effect once, in version order. */
  predicate InOrder(ms: seq<Migration>, digest: Digest, db: Db) {
    && Matches(ms, digest, db.history)
    && db.effects == ms[..|db.history|]
    && (db.history == [] ==> !db.appTables)
  }

  /** Only the lock holder is past the lock, and what it read or staged is current. */
  predicate LockProtects(ms: seq<Migration>, s: System) {
    forall r :: 0 <= r < |s.runners| ==>
      match s.runners[r]
      case Locked => s.lock == Some(r)
      case Read(rows, tables) => s.lock == Some(r) && rows == s.db.history && tables == s.db.appTables
      case Staged(m) => s.lock == Some(r) && |s.db.history| < |ms| && m == ms[|s.db.history|]
      case Finished => s.lock == Some(r) && |s.db.history| == |ms|
      case Returned(Ok(_)) => |s.db.history| == |ms|
      case _ => s.lock != Some(r)
  }

  ghost predicate Inv(ms: seq<Migration>, digest: Digest, s: System) {
    InOrder(ms, digest, s.db) && LockProtects(ms, s)
  }

  lemma CommitKeepsOrder(ms: seq<Migration>, digest: Digest, db: Db, m: Migration)
    requires Contiguous(ms) && InOrder(ms, digest, db) && |db.history| < |ms| && m == ms[|db.history|]
    ensures InOrder(ms, digest, Committed(digest, db, m))
    ensures Committed(digest, db, m).history == db.history + [RowOf(digest, m)]
  {
    PrefixGrows(ms, digest, db.history, RowOf(digest, m));
  }

  lemma EventKeepsInv(ms: seq<Migration>, digest: Digest, s: System, e: Event)
    requires Contiguous(ms) && Inv(ms, digest, s) && Can(s, e)
    ensures Inv(ms, digest, Happen(ms, digest, s, e))
    ensures s.db.history <= Happen(ms, digest, s, e).db.history
    ensures |Happen(ms, digest, s, e).runners| == |s.runners|
  {
    match e
    case Execute(r) =>
      DecisionMeaning(ms, digest, s.db.history, s.db.appTables);
    case Commit(r) =>
      if s.runners[r].Staged? {
        StagedCommitKeepsInv(ms, digest, s, r, Outside);
      }
    case LoseCommit(r) =>
      if s.runners[r].Staged? {
        StagedCommitKeepsInv(ms, digest, s, r, Returned(Err(DatabaseFailure)));
      }
    case _ =>
  }

  /** The migration of the lock holder takes effect, and the holder goes on as `next`. */
  lemma StagedCommitKeepsInv(ms: seq<Migration>, digest: Digest, s: System, r: nat, next: Runner)
    requires Contiguous(ms) && Inv(ms, digest, s) && r < |s.runners| && s.runners[r].Staged?
    requires next == Outside || next == Returned(Err(DatabaseFailure))
    ensures var s' := Unlock(Move(s, r, next).(db := Committed(digest, s.db, s.runners[r].m)), r);
            Inv(ms, digest, s') && s.db.history <= s'.db.history
  {
    CommitKeepsOrder(ms, digest, s.db, s.runners[r].m);
  }

  /**
    In every interleaving of any number of runners, with any transaction rolled back,
    the history stays a checksum-matching prefix, each migration took effect exactly
    once and in version order, and a runner that returned Ok saw a complete history.
   */
  lemma {:induction false} EveryRunIsOrdered(ms: seq<Migration>, digest: Digest, ss: seq<System>, i: nat)
    requires Contiguous(ms) && Run(ms, digest, ss) && i < |ss|
    ensures InOrder(ms, digest, ss[i].db) && LockProtects(ms, ss[i])
    ensures i > 0 ==> ss[i - 1].db.history <= ss[i].db.history
  {
    if i > 0 {
      EveryRunIsOrdered(ms, digest, ss, i - 1);
      assert Linked(ms, digest, ss, i);
      var e :| Can(ss[i - 1], e) && ss[i] == Happen(ms, digest, ss[i - 1], e);
      EventKeepsInv(ms, digest, ss[i - 1], e);
    }
  }

  /** From a sound database no runner ever rejects the history it reads. */
  lemma NoRunnerRejectsHistory(ms: seq<Migration>, digest: Digest, ss: seq<System>, i: nat, r: nat)
    requires Contiguous(ms) && Run(ms, digest, ss) && i < |ss| && r < |ss[i].runners| && ss[i].runners[r].Read?
    ensures !Decide(ms, digest, ss[i].runners[r].rows, ss[i].runners[r].tables).Reject?
  {
    EveryRunIsOrdered(ms, digest, ss, i);
    DecisionMeaning(ms, digest, ss[i].db.history, ss[i].db.appTables);
  }

  /** No runner can go on from this database: its history is foreign, or missing though tables exist. */
  predicate Foreign(ms: seq<Migration>, digest: Digest, db: Db) {
    !Matches(ms, digest, db.history) || (db.history == [] && db.appTables)
  }

  /** Every runner is before its verdict, or was turned away. */
  predicate NobodyGotThrough(s: System) {
    forall r :: 0 <= r < |s.runners| ==>
      match s.runners[r]
      case Read(rows, tables) => rows == s.db.history && tables == s.db.appTables
      case Staged(_) => false
      case Finished => false
      case Returned(result) => result.Err?
      case _ => true
  }

  /** From such a database no runner succeeds and nothing is ever written. */
  lemma {:induction false} ForeignDatabaseIsNeverTouched(ms: seq<Migration>, digest: Digest, ss: seq<System>, i: nat)
    requires Contiguous(ms) && AnyRun(ms, digest, ss) && i < |ss| && Foreign(ms, digest, ss[0].db)
    ensures ss[i].db == ss[0].db && NobodyGotThrough(ss[i])
  {
    if i > 0 {
      ForeignDatabaseIsNeverTouched(ms, digest, ss, i - 1);
      assert Linked(ms, digest, ss, i);
      DecisionMeaning(ms, digest, ss[0].db.history, ss[0].db.appTables);
    }
  }
}
