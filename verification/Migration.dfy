/** The schema migration runner: one run as a loop that may fail at any statement, and any number of
    runs side by side under the advisory lock. */
module Migration {
  import opened Common

  type Version = string

  /** What the database has committed: the migrations whose SQL took effect, in order, and the
      versions listed in schema_migrations. */
  datatype Schema = Schema(applied: seq<Version>, recorded: set<Version>)

  predicate NoRepeats(s: seq<Version>) {
    forall i, j :: 0 <= i < j < |s| ==> s[i] != s[j]
  }

  function Elements(s: seq<Version>): set<Version> {
    set v | v in s
  }

  /** Every version took effect at most once, and exactly those that did are recorded. */
  predicate SchemaOk(schema: Schema) {
    NoRepeats(schema.applied) && schema.recorded == Elements(schema.applied)
  }

  /** The files among the first n that had not been applied before, in file order. */
  function Pending(files: seq<Version>, n: nat, before: seq<Version>): seq<Version>
    requires n <= |files|
  {
    if n == 0 then []
    else Pending(files, n - 1, before) + (if files[n - 1] in before then [] else [files[n - 1]])
  }

  lemma {:induction false} PendingElements(files: seq<Version>, n: nat, before: seq<Version>, v: Version)
    requires n <= |files|
    ensures v in Pending(files, n, before) <==> v !in before && exists i :: 0 <= i < n && files[i] == v
  {
    if n > 0 {
      PendingElements(files, n - 1, before, v);
    }
  }

  lemma {:induction false} PendingIsPrefix(files: seq<Version>, m: nat, n: nat, before: seq<Version>)
    requires m <= n <= |files|
    ensures Pending(files, m, before) <= Pending(files, n, before)
  {
    if m < n {
      PendingIsPrefix(files, m, n - 1, before);
    }
  }

  /** A run that has dealt with the first n files has added exactly those that were pending. */
  predicate Reached(files: seq<Version>, n: nat, before: seq<Version>, schema: Schema)
    requires n <= |files|
  {
    schema.applied == before + Pending(files, n, before)
  }

  /** Whether the next file is listed decides whether it is skipped or still to be applied. */
  lemma NextIsListedIff(files: seq<Version>, n: nat, before: seq<Version>, schema: Schema)
    requires n < |files| && NoRepeats(files) && SchemaOk(schema) && Reached(files, n, before, schema)
    ensures files[n] in schema.recorded <==> files[n] in before
  {
    PendingElements(files, n, before, files[n]);
  }

  function Committed(schema: Schema, version: Version): Schema {
    Schema(schema.applied + [version], schema.recorded + {version})
  }

  lemma CommitOne(files: seq<Version>, n: nat, before: seq<Version>, schema: Schema)
    requires n < |files| && NoRepeats(files) && SchemaOk(schema) && Reached(files, n, before, schema)
    requires files[n] !in schema.recorded
    ensures SchemaOk(Committed(schema, files[n])) && Reached(files, n + 1, before, Committed(schema, files[n]))
  {
  }

  lemma SkipOne(files: seq<Version>, n: nat, before: seq<Version>, schema: Schema)
    requires n < |files| && NoRepeats(files) && SchemaOk(schema) && Reached(files, n, before, schema)
    requires files[n] in schema.recorded
    ensures Reached(files, n + 1, before, schema)
  {
    NextIsListedIff(files, n, before, schema);
    assert Pending(files, n + 1, before) == Pending(files, n, before);
  }

  lemma AllRecorded(files: seq<Version>, before: seq<Version>, schema: Schema)
    requires SchemaOk(schema) && Reached(files, |files|, before, schema)
    ensures forall i :: 0 <= i < |files| ==> files[i] in schema.recorded
  {
    forall i | 0 <= i < |files| ensures files[i] in schema.recorded {
      PendingElements(files, |files|, before, files[i]);
    }
  }

  /** The outcome of a run: a prefix of what was pending has been committed, all of it if the run
      succeeded. */
  predicate RunLeft(files: seq<Version>, before: seq<Version>, schema: Schema, ok: bool) {
    && SchemaOk(schema)
    && (exists k :: 0 <= k <= |files| && Reached(files, k, before, schema))
    && (ok ==> Reached(files, |files|, before, schema) && forall i :: 0 <= i < |files| ==> files[i] in schema.recorded)
  }

  // ---------------------------------------------------------------- one run

  /** What becomes of a statement; a commit may take effect although the client is told it failed. */
  datatype Fault = Works | Breaks | CommitsButBreaks

  class Runner {
    var schema: Schema

    constructor (committed: Schema)
      ensures schema == committed
    {
      schema := committed;
    }

    /** Applies the pending files in order, each together with its record, and stops at the first
        failing statement. */
    method Migrate(files: seq<Version>, faults: (nat, nat) -> Fault) returns (ok: bool)
      requires NoRepeats(files) && SchemaOk(schema)
      modifies this
      ensures RunLeft(files, old(schema).applied, schema, ok)
    {
      ghost var before := schema.applied;
      assert Reached(files, 0, before, schema);
      for i := 0 to |files|
        invariant SchemaOk(schema) && Reached(files, i, before, schema)
      {
        var version := files[i];
        if faults(i, 0) != Works {
          return false;
        }
        if version in schema.recorded {
          SkipOne(files, i, before, schema);
          continue;
        }
        if faults(i, 1) != Works {
          return false;
        }
        var begun := schema;
        if faults(i, 2) != Works {
          return false;
        }
        schema := schema.(applied := schema.applied + [version]);
        if faults(i, 3) != Works {
          schema := begun;
          return false;
        }
        schema := schema.(recorded := schema.recorded + {version});
        CommitOne(files, i, before, begun);
        match faults(i, 4) {
          case Works =>
          case Breaks =>
            schema := begun;
            return false;
          case CommitsButBreaks =>
            return false;
        }
      }
      AllRecorded(files, before, schema);
      return true;
    }
  }

  // ---------------------------------------------------------------- many runs

  type Rid = nat

  /** Where a run stands: waiting for the advisory lock, before file n, inside the transaction of file n
      with its SQL applied or not, or over. */
  datatype Phase =
    | Waiting
    | Checking(n: nat)
    | Applying(n: nat)
    | Recording(n: nat)
    | Committing(n: nat)
    | Over(ok: bool)

  /** A run, with the migrations applied when it took the lock and the schema when it ended. */
  datatype Run = Run(phase: Phase, before: seq<Version>, left: Schema)

  datatype System = System(schema: Schema, lock: Option<Rid>, runs: map<Rid, Run>)

  datatype Step =
    | Begin(rid: Rid)
    | TakeLock(rid: Rid)
    | Proceed(rid: Rid)
    | Fail(rid: Rid)
    | CommitUnseen(rid: Rid)

  function Ended(sys: System, rid: Rid, ok: bool): System
    requires rid in sys.runs
  {
    sys.(lock := if sys.lock == Some(rid) then None else sys.lock,
         runs := sys.runs[rid := sys.runs[rid].(phase := Over(ok), left := sys.schema)])
  }

  function Moved(sys: System, rid: Rid, phase: Phase): System
    requires rid in sys.runs
  {
    sys.(runs := sys.runs[rid := sys.runs[rid].(phase := phase)])
  }

  /** The next statement of a run works. */
  function Proceeded(files: seq<Version>, sys: System, rid: Rid): System
    requires rid in sys.runs
  {
    match sys.runs[rid].phase
    case Waiting => sys
    case Checking(n) =>
      if n >= |files| then Ended(sys, rid, true)
      else if files[n] in sys.schema.recorded then Moved(sys, rid, Checking(n + 1))
      else Moved(sys, rid, Applying(n))
    case Applying(n) => Moved(sys, rid, Recording(n))
    case Recording(n) => Moved(sys, rid, Committing(n))
    case Committing(n) =>
      if n < |files| then Moved(sys.(schema := Committed(sys.schema, files[n])), rid, Checking(n + 1)) else sys
    case Over(_) => sys
  }

  /** Steps that do not apply leave the system as it is. A run that fails rolls its transaction back and
      gives up the lock; a lost reply to a commit fails the run although the commit took effect. */
  function Exec(files: seq<Version>, sys: System, step: Step): System {
    match step
    case Begin(rid) =>
      if rid in sys.runs then sys else sys.(runs := sys.runs[rid := Run(Waiting, [], sys.schema)])
    case TakeLock(rid) =>
      if rid in sys.runs && sys.runs[rid].phase == Waiting && sys.lock == None
      then sys.(lock := Some(rid), runs := sys.runs[rid := Run(Checking(0), sys.schema.applied, sys.schema)])
      else sys
    case Proceed(rid) => if rid in sys.runs then Proceeded(files, sys, rid) else sys
    case Fail(rid) =>
      if rid in sys.runs && sys.lock == Some(rid) then Ended(sys, rid, false) else sys
    case CommitUnseen(rid) =>
      if rid in sys.runs && sys.runs[rid].phase.Committing? && sys.runs[rid].phase.n < |files|
      then Ended(sys.(schema := Committed(sys.schema, files[sys.runs[rid].phase.n])), rid, false)
      else sys
  }

  function ExecAll(files: seq<Version>, sys: System, steps: seq<Step>): System {
    if steps == [] then sys else Exec(files, ExecAll(files, sys, steps[..|steps| - 1]), steps[|steps| - 1])
  }

  function Start(schema: Schema): System {
    System(schema, None, map[])
  }

  predicate Active(phase: Phase) {
    !phase.Waiting? && !phase.Over?
  }

  predicate AboutToApply(files: seq<Version>, schema: Schema, before: seq<Version>, n: nat) {
    n < |files| && Reached(files, n, before, schema) && files[n] !in schema.recorded
  }

  /** A run inside the lock has dealt with the files before n; the one it is about to apply is still
      unlisted, since nobody else commits meanwhile. */
  predicate RunOk(files: seq<Version>, schema: Schema, lock: Option<Rid>, rid: Rid, run: Run) {
    match run.phase
    case Waiting => true
    case Over(ok) => RunLeft(files, run.before, run.left, ok)
    case Checking(n) => lock == Some(rid) && n <= |files| && Reached(files, n, run.before, schema)
    case Applying(n) => lock == Some(rid) && AboutToApply(files, schema, run.before, n)
    case Recording(n) => lock == Some(rid) && AboutToApply(files, schema, run.before, n)
    case Committing(n) => lock == Some(rid) && AboutToApply(files, schema, run.before, n)
  }

  predicate RunsOk(files: seq<Version>, sys: System) {
    forall rid :: rid in sys.runs ==> RunOk(files, sys.schema, sys.lock, rid, sys.runs[rid])
  }

  predicate LockOk(sys: System) {
    sys.lock.Some? ==> sys.lock.value in sys.runs && Active(sys.runs[sys.lock.value].phase)
  }

  predicate SystemOk(files: seq<Version>, sys: System) {
    SchemaOk(sys.schema) && LockOk(sys) && RunsOk(files, sys)
  }

  /** A run inside the lock stops here: what it leaves is a prefix of what was pending. */
  lemma StopsAtPrefix(files: seq<Version>, schema: Schema, n: nat, before: seq<Version>)
    requires SchemaOk(schema) && n <= |files| && Reached(files, n, before, schema)
    ensures RunLeft(files, before, schema, false)
    ensures n == |files| ==> RunLeft(files, before, schema, true)
  {
    if n == |files| {
      AllRecorded(files, before, schema);
    }
  }

  lemma HolderMoves(files: seq<Version>, sys: System, sys': System, holder: Rid)
    requires RunsOk(files, sys) && holder in sys.runs && holder in sys'.runs
    requires sys'.runs == sys.runs[holder := sys'.runs[holder]]
    requires RunOk(files, sys'.schema, sys'.lock, holder, sys'.runs[holder])
    requires sys.lock == Some(holder) || (sys.lock == None && sys'.schema == sys.schema)
    requires sys'.lock == Some(holder) || sys'.lock == None
    ensures RunsOk(files, sys')
  {
  }

  lemma ProceedKeepsSystem(files: seq<Version>, sys: System, rid: Rid)
    requires NoRepeats(files) && SystemOk(files, sys) && rid in sys.runs && Active(sys.runs[rid].phase)
    ensures SystemOk(files, Proceeded(files, sys, rid))
  {
    var run := sys.runs[rid];
    assert RunOk(files, sys.schema, sys.lock, rid, run);
    var sys' := Proceeded(files, sys, rid);
    match run.phase {
      case Checking(n) =>
        if n >= |files| {
          StopsAtPrefix(files, sys.schema, n, run.before);
        } else if files[n] in sys.schema.recorded {
          SkipOne(files, n, run.before, sys.schema);
        }
      case Applying(n) =>
      case Recording(n) =>
      case Committing(n) => CommitOne(files, n, run.before, sys.schema);
    }
    HolderMoves(files, sys, sys', rid);
  }

  lemma FailKeepsSystem(files: seq<Version>, sys: System, rid: Rid)
    requires SystemOk(files, sys) && rid in sys.runs && sys.lock == Some(rid)
    ensures SystemOk(files, Ended(sys, rid, false))
  {
  }

  lemma UnseenKeepsSystem(files: seq<Version>, sys: System, rid: Rid)
    requires NoRepeats(files) && SystemOk(files, sys) && rid in sys.runs && sys.runs[rid].phase.Committing?
    ensures SystemOk(files, Exec(files, sys, CommitUnseen(rid)))
  {
    var run := sys.runs[rid];
    assert RunOk(files, sys.schema, sys.lock, rid, run);
    var n := run.phase.n;
    CommitOne(files, n, run.before, sys.schema);
    StopsAtPrefix(files, Committed(sys.schema, files[n]), n + 1, run.before);
    HolderMoves(files, sys, Exec(files, sys, CommitUnseen(rid)), rid);
  }

  lemma TakeLockKeepsSystem(files: seq<Version>, sys: System, rid: Rid)
    requires SystemOk(files, sys) && rid in sys.runs && sys.lock == None
    ensures SystemOk(files, Exec(files, sys, TakeLock(rid)))
  {
  }

  lemma StepKeepsSystem(files: seq<Version>, sys: System, step: Step)
    requires NoRepeats(files) && SystemOk(files, sys)
    ensures SystemOk(files, Exec(files, sys, step))
  {
    match step
    case Begin(_) =>
    case TakeLock(rid) => if rid in sys.runs && sys.lock == None { TakeLockKeepsSystem(files, sys, rid); }
    case Proceed(rid) =>
      if rid in sys.runs && Active(sys.runs[rid].phase) { ProceedKeepsSystem(files, sys, rid); }
    case Fail(rid) => if rid in sys.runs && sys.lock == Some(rid) { FailKeepsSystem(files, sys, rid); }
    case CommitUnseen(rid) =>
      if rid in sys.runs && sys.runs[rid].phase.Committing? { UnseenKeepsSystem(files, sys, rid); }
  }

  lemma {:induction false} ReachableIsOk(files: seq<Version>, schema: Schema, steps: seq<Step>)
    requires NoRepeats(files) && SchemaOk(schema)
    ensures SystemOk(files, ExecAll(files, Start(schema), steps))
  {
    if steps != [] {
      ReachableIsOk(files, schema, steps[..|steps| - 1]);
      StepKeepsSystem(files, ExecAll(files, Start(schema), steps[..|steps| - 1]), steps[|steps| - 1]);
    }
  }

  /** Across any number of runs that may each fail at any statement, every migration takes effect at
      most once and exactly when it is recorded; every run that is over has added a prefix of what was
      pending when it took the lock, and one that succeeded has left every file recorded. */
  lemma ExactlyOnce(files: seq<Version>, schema: Schema, steps: seq<Step>)
    requires NoRepeats(files) && SchemaOk(schema)
    ensures
      var sys := ExecAll(files, Start(schema), steps);
      && NoRepeats(sys.schema.applied) && sys.schema.recorded == Elements(sys.schema.applied)
      && forall rid :: rid in sys.runs && sys.runs[rid].phase.Over? ==>
           RunLeft(files, sys.runs[rid].before, sys.runs[rid].left, sys.runs[rid].phase.ok)
  {
    ReachableIsOk(files, schema, steps);
    var sys := ExecAll(files, Start(schema), steps);
    forall rid | rid in sys.runs && sys.runs[rid].phase.Over?
      ensures RunLeft(files, sys.runs[rid].before, sys.runs[rid].left, sys.runs[rid].phase.ok)
    {
      assert RunOk(files, sys.schema, sys.lock, rid, sys.runs[rid]);
    }
  }

  /** Recorded versions are never lost. */
  lemma {:induction false} RecordedStays(files: seq<Version>, sys: System, steps: seq<Step>)
    ensures sys.schema.recorded <= ExecAll(files, sys, steps).schema.recorded
  {
    if steps != [] {
      RecordedStays(files, sys, steps[..|steps| - 1]);
    }
  }
}
