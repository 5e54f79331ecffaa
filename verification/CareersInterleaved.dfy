/** The cached read and the staff writes with their steps apart: a reader gets the
    entry, queries the table and sets the entry; a writer commits and then deletes
    the entry. Time passes in between and cache calls may fail. */
module CareersInterleaved {
  import opened Seqs
  import opened CareersModel
  import opened PublicJobs
  import CareersService

  const TTL := CareersService.PUBLIC_JOBS_CACHE_TTL_SECONDS

  /** The committed tables so far, each with the instant from which it was current. */
  datatype Version = Version(since: int, rows: seq<Job>)

  /** `version` and `queriedAt` record where the data came from. */
  datatype Entry = Entry(jobs: seq<PublicJob>, expiresAt: int, version: nat, queriedAt: int)

  /** `overtaken`: some writer deleted the entry since this reader's query. */
  datatype Reader =
    | Missed
    | Queried(jobs: seq<PublicJob>, version: nat, queriedAt: int, overtaken: bool)

  datatype Served = Served(at: int, jobs: seq<PublicJob>)

  datatype System = System(
    now: int, versions: seq<Version>, cache: Option<Entry>,
    readers: map<nat, Reader>, writers: set<nat>, served: seq<Served>)

  datatype Step =
    | Tick(seconds: nat)
    | GetEntry(reader: nat)
    | GetFails(reader: nat)
    | QueryRows(reader: nat)
    | SetEntry(reader: nat)
    | SetFails(reader: nat)
    | Commit(writer: nat, rows: seq<Job>)
    | CommitDraft(job: Job)
    | DeleteEntry(writer: nat)
    | DeleteFails(writer: nat)

  function Init(now: int): System {
    System(now, [Version(now, [])], None, map[], {}, [])
  }

  function Rows(s: System): seq<Job> {
    if s.versions == [] then [] else s.versions[|s.versions| - 1].rows
  }

  predicate Live(cache: Option<Entry>, now: int) {
    cache.Some? && now < cache.value.expiresAt
  }

  /** A purging commit may install any table, so lost updates between two staff
      writes are covered; a new requisition is a DRAFT row and is not followed by a delete. */
  predicate Enabled(s: System, step: Step) {
    match step
    case Tick(_) => true
    case GetEntry(r) => r !in s.readers
    case GetFails(r) => r !in s.readers
    case QueryRows(r) => r in s.readers && s.readers[r].Missed? && s.versions != []
    case SetEntry(r) => r in s.readers && s.readers[r].Queried?
    case SetFails(r) => r in s.readers && s.readers[r].Queried?
    case Commit(w, _) => w !in s.writers
    case CommitDraft(job) => job.status == Draft
    case DeleteEntry(w) => w in s.writers
    case DeleteFails(w) => w in s.writers
  }

  function Overtake(readers: map<nat, Reader>): map<nat, Reader> {
    map r | r in readers :: if readers[r].Queried? then readers[r].(overtaken := true) else readers[r]
  }

  function Next(s: System, step: Step): System
    requires Enabled(s, step)
  {
    match step
    case Tick(d) => s.(now := s.now + d)
    case GetEntry(r) =>
      if Live(s.cache, s.now) then s.(served := s.served + [Served(s.now, s.cache.value.jobs)])
      else s.(readers := s.readers[r := Missed])
    case GetFails(r) => s.(readers := s.readers[r := Missed])
    case QueryRows(r) =>
      s.(readers := s.readers[r := Queried(Projection(Rows(s)), |s.versions| - 1, s.now, false)])
    case SetEntry(r) =>
      var q := s.readers[r];
      s.(cache := Some(Entry(q.jobs, s.now + TTL, q.version, q.queriedAt)),
         readers := s.readers - {r}, served := s.served + [Served(s.now, q.jobs)])
    case SetFails(r) =>
      s.(readers := s.readers - {r}, served := s.served + [Served(s.now, s.readers[r].jobs)])
    case Commit(w, rows) => s.(versions := s.versions + [Version(s.now, rows)], writers := s.writers + {w})
    case CommitDraft(job) => s.(versions := s.versions + [Version(s.now, Rows(s) + [job])])
    case DeleteEntry(w) => s.(cache := None, writers := s.writers - {w}, readers := Overtake(s.readers))
    case DeleteFails(w) => s.(writers := s.writers - {w})
  }

  ghost predicate Possible(s: System, steps: seq<Step>)
    decreases |steps|
  {
    steps != [] ==> Enabled(s, steps[0]) && Possible(Next(s, steps[0]), steps[1..])
  }

  function Exec(s: System, steps: seq<Step>): System
    requires Possible(s, steps)
    decreases |steps|
  {
    if steps == [] then s else Exec(Next(s, steps[0]), steps[1..])
  }

  // ----- how old a served list can be -----

  /** Version i was the current table at instant t. */
  predicate CurrentAt(s: System, i: nat, t: int) {
    && i < |s.versions|
    && s.versions[i].since <= t
    && t <= if i + 1 < |s.versions| then s.versions[i + 1].since else s.now
  }

  /** Every reader answers within D seconds of its query. */
  ghost predicate Prompt(s: System, steps: seq<Step>, D: nat)
    requires Possible(s, steps)
    decreases |steps|
  {
    steps != [] ==>
      && ((steps[0].SetEntry? || steps[0].SetFails?) ==> s.now - s.readers[steps[0].reader].queriedAt <= D)
      && Prompt(Next(s, steps[0]), steps[1..], D)
  }

  /** The list is what the table projected to at some instant within the last `age` seconds before `at`. */
  ghost predicate RecentProjection(s: System, jobs: seq<PublicJob>, at: int, age: int) {
    exists i: nat, t: int :: CurrentAt(s, i, t) && at - age <= t <= at && jobs == Projection(s.versions[i].rows)
  }

  ghost predicate FromVersion(s: System, jobs: seq<PublicJob>, version: nat, queriedAt: int) {
    CurrentAt(s, version, queriedAt) && queriedAt <= s.now && jobs == Projection(s.versions[version].rows)
  }

  ghost predicate EntrySourced(s: System, D: nat) {
    s.cache.Some? ==>
      && FromVersion(s, s.cache.value.jobs, s.cache.value.version, s.cache.value.queriedAt)
      && s.cache.value.expiresAt <= s.cache.value.queriedAt + D + TTL
  }

  ghost predicate ReadersSourced(s: System) {
    forall r :: r in s.readers && s.readers[r].Queried? ==>
      FromVersion(s, s.readers[r].jobs, s.readers[r].version, s.readers[r].queriedAt)
  }

  ghost predicate Sourced(s: System, D: nat) {
    && s.versions != [] && s.versions[|s.versions| - 1].since <= s.now
    && EntrySourced(s, D) && ReadersSourced(s)
  }

  ghost predicate ServedRecent(s: System, age: int) {
    forall k :: 0 <= k < |s.served| ==> RecentProjection(s, s.served[k].jobs, s.served[k].at, age)
  }

  ghost predicate Traced(s: System, D: nat) {
    Sourced(s, D) && ServedRecent(s, D + TTL)
  }

  /** What was current at an instant stays what was current then. */
  ghost predicate Later(s: System, t: System) {
    && s.now <= t.now && |s.versions| <= |t.versions|
    && (forall i :: 0 <= i < |s.versions| ==> t.versions[i] == s.versions[i])
    && (|s.versions| < |t.versions| ==> s.now <= t.versions[|s.versions|].since)
  }

  lemma LaterKeepsCurrent(s: System, t: System, i: nat, x: int)
    requires Later(s, t) && CurrentAt(s, i, x)
    ensures CurrentAt(t, i, x) && t.versions[i] == s.versions[i]
  {
  }

  lemma LaterKeepsProjections(s: System, t: System, jobs: seq<PublicJob>, at: int, age: int)
    requires Later(s, t) && RecentProjection(s, jobs, at, age)
    ensures RecentProjection(t, jobs, at, age)
  {
    var i: nat, x: int :| CurrentAt(s, i, x) && at - age <= x <= at && jobs == Projection(s.versions[i].rows);
    LaterKeepsCurrent(s, t, i, x);
  }

  lemma StepIsLater(s: System, step: Step)
    requires Enabled(s, step)
    ensures Later(s, Next(s, step))
  {
  }

  lemma LaterKeepsSources(s: System, t: System, jobs: seq<PublicJob>, version: nat, queriedAt: int)
    requires Later(s, t) && FromVersion(s, jobs, version, queriedAt)
    ensures FromVersion(t, jobs, version, queriedAt)
  {
    LaterKeepsCurrent(s, t, version, queriedAt);
  }

  ghost predicate SourcesStay(s: System, t: System) {
    forall jobs, version, queriedAt | FromVersion(s, jobs, version, queriedAt) :: FromVersion(t, jobs, version, queriedAt)
  }

  lemma StepKeepsSources(s: System, step: Step)
    requires Enabled(s, step)
    ensures SourcesStay(s, Next(s, step))
  {
    var t := Next(s, step);
    StepIsLater(s, step);
    forall jobs, version, queriedAt | FromVersion(s, jobs, version, queriedAt)
      ensures FromVersion(t, jobs, version, queriedAt)
    {
      LaterKeepsSources(s, t, jobs, version, queriedAt);
    }
  }

  lemma StepKeepsEntrySourced(s: System, step: Step, D: nat)
    requires Sourced(s, D) && Enabled(s, step) && SourcesStay(s, Next(s, step))
    requires step.SetEntry? ==> s.now - s.readers[step.reader].queriedAt <= D
    ensures EntrySourced(Next(s, step), D)
  {
  }

  lemma StepKeepsReadersSourced(s: System, step: Step, D: nat)
    requires Sourced(s, D) && Enabled(s, step) && SourcesStay(s, Next(s, step))
    ensures ReadersSourced(Next(s, step))
  {
    if step.QueryRows? {
      assert FromVersion(s, Projection(Rows(s)), |s.versions| - 1, s.now);
    }
  }

  lemma StepKeepsSourced(s: System, step: Step, D: nat)
    requires Sourced(s, D) && Enabled(s, step)
    requires step.SetEntry? ==> s.now - s.readers[step.reader].queriedAt <= D
    ensures Sourced(Next(s, step), D)
  {
    StepKeepsSources(s, step);
    StepKeepsEntrySourced(s, step, D);
    StepKeepsReadersSourced(s, step, D);
  }

  /** The one list a step serves comes from the entry or from the reader's own query. */
  lemma NewlyServedIsRecent(s: System, step: Step, D: nat)
    requires Sourced(s, D) && Enabled(s, step)
    requires (step.SetEntry? || step.SetFails?) ==> s.now - s.readers[step.reader].queriedAt <= D
    ensures var t := Next(s, step);
            t.served == s.served
            || (|t.served| == |s.served| + 1 && t.served[..|s.served|] == s.served
                && t.served[|s.served|].at == s.now
                && RecentProjection(s, t.served[|s.served|].jobs, s.now, D + TTL))
  {
    if step.GetEntry? && Live(s.cache, s.now) {
      assert CurrentAt(s, s.cache.value.version, s.cache.value.queriedAt);
    } else if step.SetEntry? || step.SetFails? {
      assert CurrentAt(s, s.readers[step.reader].version, s.readers[step.reader].queriedAt);
    }
  }

  lemma StepKeepsTraced(s: System, step: Step, D: nat)
    requires Traced(s, D) && Enabled(s, step)
    requires (step.SetEntry? || step.SetFails?) ==> s.now - s.readers[step.reader].queriedAt <= D
    ensures Traced(Next(s, step), D)
  {
    var t := Next(s, step);
    StepIsLater(s, step);
    StepKeepsSourced(s, step, D);
    NewlyServedIsRecent(s, step, D);
    forall k | 0 <= k < |t.served| ensures RecentProjection(t, t.served[k].jobs, t.served[k].at, D + TTL) {
      if k < |s.served| {
        assert t.served[k] == s.served[k];
      }
      LaterKeepsProjections(s, t, t.served[k].jobs, t.served[k].at, D + TTL);
    }
  }

  lemma {:induction false} RunKeepsTraced(s: System, steps: seq<Step>, D: nat)
    requires Traced(s, D) && Possible(s, steps) && Prompt(s, steps, D)
    ensures Traced(Exec(s, steps), D)
    decreases |steps|
  {
    if steps != [] {
      StepKeepsTraced(s, steps[0], D);
      RunKeepsTraced(Next(s, steps[0]), steps[1..], D);
    }
  }

  /** In every interleaving, even when cache calls fail, each list that was served at
      an instant is the projection of a table that was current at most D + 30 seconds
      before it. */
  lemma ServedListsAreRecent(start: int, steps: seq<Step>, D: nat, k: nat)
    requires Possible(Init(start), steps) && Prompt(Init(start), steps, D)
    requires k < |Exec(Init(start), steps).served|
    ensures var s := Exec(Init(start), steps);
            RecentProjection(s, s.served[k].jobs, s.served[k].at, D + 30)
  {
    RunKeepsTraced(Init(start), steps, D);
  }

  // ----- when a live entry is current -----

  /** No delete is lost, and no reader that was overtaken by one sets the entry. */
  ghost predicate Undisturbed(s: System, steps: seq<Step>)
    requires Possible(s, steps)
    decreases |steps|
  {
    steps != [] ==>
      && !steps[0].DeleteFails?
      && (steps[0].SetEntry? ==> !s.readers[steps[0].reader].overtaken)
      && Undisturbed(Next(s, steps[0]), steps[1..])
  }

  /** While no writer is between its commit and its delete, the entry and every
      reader that was not overtaken hold the current projection. */
  ghost predicate Settled(s: System) {
    && s.versions != []
    && (s.writers == {} ==>
          && (s.cache.Some? ==> s.cache.value.jobs == Projection(Rows(s)))
          && (forall r :: r in s.readers && s.readers[r].Queried? && !s.readers[r].overtaken ==>
                s.readers[r].jobs == Projection(Rows(s))))
  }

  lemma DraftKeepsSettled(s: System, job: Job)
    requires Settled(s) && Enabled(s, CommitDraft(job))
    ensures Settled(Next(s, CommitDraft(job)))
  {
    assert Rows(Next(s, CommitDraft(job))) == Rows(s) + [job];
    HiddenRowChangesNothing(Rows(s), job);
  }

  lemma WriterKeepsSettled(s: System, step: Step)
    requires Settled(s) && Enabled(s, step) && (step.Tick? || step.Commit? || step.DeleteEntry?)
    ensures Settled(Next(s, step))
  {
  }

  lemma ReaderKeepsSettled(s: System, step: Step)
    requires Settled(s) && Enabled(s, step)
    requires step.GetEntry? || step.GetFails? || step.QueryRows? || step.SetEntry? || step.SetFails?
    requires step.SetEntry? ==> !s.readers[step.reader].overtaken
    ensures Settled(Next(s, step))
  {
    assert Rows(Next(s, step)) == Rows(s);
  }

  lemma StepKeepsSettled(s: System, step: Step)
    requires Settled(s) && Enabled(s, step) && !step.DeleteFails?
    requires step.SetEntry? ==> !s.readers[step.reader].overtaken
    ensures Settled(Next(s, step))
  {
    match step
    case CommitDraft(job) => DraftKeepsSettled(s, job);
    case Tick(_) => WriterKeepsSettled(s, step);
    case Commit(_, _) => WriterKeepsSettled(s, step);
    case DeleteEntry(_) => WriterKeepsSettled(s, step);
    case _ => ReaderKeepsSettled(s, step);
  }

  lemma {:induction false} RunKeepsSettled(s: System, steps: seq<Step>)
    requires Settled(s) && Possible(s, steps) && Undisturbed(s, steps)
    ensures Settled(Exec(s, steps))
    decreases |steps|
  {
    if steps != [] {
      StepKeepsSettled(s, steps[0]);
      RunKeepsSettled(Next(s, steps[0]), steps[1..]);
    }
  }

  /** In undisturbed interleavings the entry is the current projection whenever no
      writer sits between commit and delete. */
  lemma EntryIsCurrentBetweenWrites(start: int, steps: seq<Step>)
    requires Possible(Init(start), steps) && Undisturbed(Init(start), steps)
    ensures var s := Exec(Init(start), steps);
            s.writers == {} && s.cache.Some? ==> s.cache.value.jobs == Projection(Rows(s))
  {
    RunKeepsSettled(Init(start), steps);
  }

  /** The condition is needed: a reader whose query a write overtakes installs a live
      entry that is current exactly when the write did not change the projection. */
  lemma OvertakenReaderInstallsStaleEntry(s: System, r: nat, w: nat, rows: seq<Job>)
    requires s.versions != [] && r in s.readers && s.readers[r].Missed? && s.writers == {}
    ensures var steps := [QueryRows(r), Commit(w, rows), DeleteEntry(w), SetEntry(r)];
            && Possible(s, steps)
            && var t := Exec(s, steps);
               && t.writers == {} && Rows(t) == rows && Live(t.cache, t.now)
               && (t.cache.value.jobs == Projection(Rows(t)) <==> Projection(rows) == Projection(Rows(s)))
  {
    FourSteps(s, QueryRows(r), Commit(w, rows), DeleteEntry(w), SetEntry(r));
  }

  lemma Prepend(s: System, a: Step, rest: seq<Step>)
    requires Enabled(s, a) && Possible(Next(s, a), rest)
    ensures Possible(s, [a] + rest) && Exec(s, [a] + rest) == Exec(Next(s, a), rest)
  {
    assert ([a] + rest)[1..] == rest;
  }

  lemma FourSteps(s: System, a: Step, b: Step, c: Step, d: Step)
    requires Enabled(s, a) && Enabled(Next(s, a), b) && Enabled(Next(Next(s, a), b), c)
    requires Enabled(Next(Next(Next(s, a), b), c), d)
    ensures Possible(s, [a, b, c, d])
    ensures Exec(s, [a, b, c, d]) == Next(Next(Next(Next(s, a), b), c), d)
  {
    ThreeSteps(Next(s, a), b, c, d);
    Prepend(s, a, [b, c, d]);
    assert [a] + [b, c, d] == [a, b, c, d];
  }

  lemma ThreeSteps(s: System, a: Step, b: Step, c: Step)
    requires Enabled(s, a) && Enabled(Next(s, a), b) && Enabled(Next(Next(s, a), b), c)
    ensures Possible(s, [a, b, c]) && Exec(s, [a, b, c]) == Next(Next(Next(s, a), b), c)
  {
    TwoSteps(Next(s, a), b, c);
    Prepend(s, a, [b, c]);
    assert [a] + [b, c] == [a, b, c];
  }

  lemma TwoSteps(s: System, a: Step, b: Step)
    requires Enabled(s, a) && Enabled(Next(s, a), b)
    ensures Possible(s, [a, b]) && Exec(s, [a, b]) == Next(Next(s, a), b)
  {
    OneStep(Next(s, a), b);
    Prepend(s, a, [b]);
    assert [a] + [b] == [a, b];
  }

  lemma OneStep(s: System, a: Step)
    requires Enabled(s, a)
    ensures Possible(s, [a]) && Exec(s, [a]) == Next(s, a)
  {
    Prepend(s, a, []);
    assert [a] + [] == [a];
  }

  // ----- the atomic operations as runs of the steps -----

  ghost predicate Matches(c: CareersService.State, s: System) {
    && s.versions != [] && Rows(s) == c.rows && s.readers == map[] && s.writers == {}
    && (c.cache.Some? <==> s.cache.Some?)
    && (c.cache.Some? ==> c.cache.value == CareersService.CacheEntry(s.cache.value.jobs, s.cache.value.expiresAt))
  }

  /** The steps an atomic operation stands for. */
  function StepsOf(w: CareersService.Writer, c: CareersService.State, op: CareersService.Op): seq<Step> {
    var rows := CareersService.Step(w, c, op).rows;
    match op
    case Read(now) => if CareersService.Live(c.cache, now) then [GetEntry(0)] else [GetEntry(0), QueryRows(0), SetEntry(0)]
    case Create(n, id, _, _, _, _) =>
      if CareersService.CreateError(c.rows, n, id).Some? then [] else [CommitDraft(rows[|rows| - 1])]
    case _ => if CareersService.Step(w, c, op) == c then [] else [Commit(0, rows), DeleteEntry(0)]
  }

  lemma ReadIsUninterruptedRun(w: CareersService.Writer, c: CareersService.State, s: System, now: int)
    requires Matches(c, s) && now == s.now
    ensures var steps := StepsOf(w, c, CareersService.Read(now));
            && Possible(s, steps)
            && Matches(CareersService.AfterLoad(c, now), Exec(s, steps))
            && Exec(s, steps).served == s.served + [Served(s.now, CareersService.Loaded(c, now))]
  {
    if CareersService.Live(c.cache, now) {
      OneStep(s, GetEntry(0));
    } else {
      ThreeSteps(s, GetEntry(0), QueryRows(0), SetEntry(0));
      var s3 := Next(Next(Next(s, GetEntry(0)), QueryRows(0)), SetEntry(0));
      assert s3.readers == map[];
      assert s3.versions == s.versions;
    }
  }

  lemma PurgingWriteIsUninterruptedRun(c: CareersService.State, s: System, rows: seq<Job>, d: CareersService.State)
    requires Matches(c, s) && d.rows == rows && d.cache.None?
    ensures Possible(s, [Commit(0, rows), DeleteEntry(0)])
    ensures Matches(d, Exec(s, [Commit(0, rows), DeleteEntry(0)]))
  {
    TwoSteps(s, Commit(0, rows), DeleteEntry(0));
    assert Overtake(map[]) == map[];
  }

  /** Run without interruption, the steps of an operation do what the operation does:
      the same table, the same entry with the same expiry, and a read serves the same list. */
  lemma AtomicOperationIsUninterruptedRun(w: CareersService.Writer, c: CareersService.State, s: System, op: CareersService.Op)
    requires Matches(c, s) && (op.Read? ==> op.now == s.now)
    ensures Possible(s, StepsOf(w, c, op))
    ensures Matches(CareersService.Step(w, c, op), Exec(s, StepsOf(w, c, op)))
    ensures op.Read? ==> Exec(s, StepsOf(w, c, op)).served == s.served + [Served(s.now, CareersService.Loaded(c, s.now))]
  {
    var d := CareersService.Step(w, c, op);
    if op.Read? {
      ReadIsUninterruptedRun(w, c, s, op.now);
    } else if op.Create? {
      if CareersService.CreateError(c.rows, op.draft, op.id).None? {
        var row := CareersService.DraftRow(op.draft, op.id, op.actor, op.postedAt, op.verifiedAt);
        assert d.rows == c.rows + [row];
        OneStep(s, CommitDraft(row));
      }
    } else if d != c {
      PurgingWriteIsUninterruptedRun(c, s, d.rows, d);
    }
  }
}
