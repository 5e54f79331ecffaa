/** Status transitions with their check and their commit apart. A staff request reads a
    requisition, checks the move against the lifecycle table and later writes only the
    new status; nothing makes the write depend on what was read. */
module CareersRace {
  import opened Seqs
  import opened CareersModel
  import opened CareersService

  /** A move that was checked when the row had status `seen`. `over` is what the last move
      of the same row that was written since has left. */
  datatype Pending = Pending(id: string, seen: Status, to: Status, over: Option<Status>)

  /** A written move: what the row was when it was written, what the request had read and
      reports to the audit trail, and what the row became. */
  datatype Written = Written(id: string, before: Status, seen: Status, to: Status)

  datatype Board = Board(status: map<string, Status>, pending: map<nat, Pending>, written: seq<Written>)

  datatype Step =
    | Open(id: string)
    | Check(request: nat, id: string, to: Status)
    | Write(request: nat)

  const INIT := Board(map[], map[], [])

  predicate Enabled(b: Board, step: Step) {
    match step
    case Open(id) => id !in b.status
    case Check(r, id, to) => r !in b.pending && id in b.status && to in NextStatuses(b.status[id])
    case Write(r) => r in b.pending && b.pending[r].id in b.status
  }

  function Overtake(pending: map<nat, Pending>, id: string, to: Status): map<nat, Pending> {
    map r | r in pending :: if pending[r].id == id then pending[r].(over := Some(to)) else pending[r]
  }

  function Next(b: Board, step: Step): Board
    requires Enabled(b, step)
  {
    match step
    case Open(id) => b.(status := b.status[id := Draft])
    case Check(r, id, to) => b.(pending := b.pending[r := Pending(id, b.status[id], to, None)])
    case Write(r) =>
      var p := b.pending[r];
      Board(b.status[p.id := p.to], Overtake(b.pending - {r}, p.id, p.to),
            b.written + [Written(p.id, b.status[p.id], p.seen, p.to)])
  }

  ghost predicate Possible(b: Board, steps: seq<Step>)
    decreases |steps|
  {
    steps != [] ==> Enabled(b, steps[0]) && Possible(Next(b, steps[0]), steps[1..])
  }

  function Exec(b: Board, steps: seq<Step>): Board
    requires Possible(b, steps)
    decreases |steps|
  {
    if steps == [] then b else Exec(Next(b, steps[0]), steps[1..])
  }

  // ----- when the lifecycle holds -----

  /** The written moves of one requisition. */
  function MovesFor(written: seq<Written>, id: string): seq<(Status, Status)> {
    if written == [] then []
    else MovesFor(written[..|written| - 1], id) + MoveOf(written[|written| - 1], id)
  }

  function MoveOf(w: Written, id: string): seq<(Status, Status)> {
    if w.id == id then [(w.before, w.to)] else []
  }

  /** Each requisition has walked the lifecycle table. */
  ghost predicate Walking(b: Board) {
    && (forall id :: id in b.status ==> Walk(MovesFor(b.written, id), b.status[id]))
    && (forall id :: id !in b.status ==> MovesFor(b.written, id) == [])
  }

  ghost predicate AlwaysWalking(b: Board, steps: seq<Step>)
    requires Possible(b, steps)
    decreases |steps|
  {
    Walking(b) && (steps != [] ==> AlwaysWalking(Next(b, steps[0]), steps[1..]))
  }

  lemma MovesForAppend(written: seq<Written>, w: Written, id: string)
    ensures MovesFor(written + [w], id) == MovesFor(written, id) + MoveOf(w, id)
  {
    assert (written + [w])[..|written|] == written;
  }

  lemma WriteKeepsWalkingExactly(b: Board, r: nat)
    requires Walking(b) && Enabled(b, Write(r))
    ensures Walking(Next(b, Write(r))) <==> b.pending[r].to in NextStatuses(b.status[b.pending[r].id])
  {
    var p, t := b.pending[r], Next(b, Write(r));
    var w := Written(p.id, b.status[p.id], p.seen, p.to);
    forall id ensures MovesFor(t.written, id) == MovesFor(b.written, id) + MoveOf(w, id) {
      MovesForAppend(b.written, w, id);
    }
    WalkOneMore(MovesFor(b.written, p.id), b.status[p.id], p.to);
    forall id | id != p.id ensures MovesFor(t.written, id) == MovesFor(b.written, id) {
      assert MoveOf(w, id) == [];
    }
    assert MovesFor(t.written, p.id) == MovesFor(b.written, p.id) + [(b.status[p.id], p.to)];
    assert t.status[p.id] == p.to;
  }

  /** What a pending move finds: what it read, or what the last overtaking move left. */
  function Finds(p: Pending): Status {
    if p.over.Some? then p.over.value else p.seen
  }

  /** Every checked move was allowed from what it read, and finds what it should. */
  ghost predicate Checked(b: Board) {
    forall r :: r in b.pending ==>
      && b.pending[r].id in b.status && b.pending[r].to in NextStatuses(b.pending[r].seen)
      && b.status[b.pending[r].id] == Finds(b.pending[r])
  }

  lemma StepKeepsChecked(b: Board, step: Step)
    requires Checked(b) && Enabled(b, step)
    ensures Checked(Next(b, step))
  {
  }

  /** A status that a requisition can have some moves later. */
  predicate After(from: Status, to: Status) {
    Rank(to) <= Rank(from) && (Rank(from) >= 2 ==> Rank(to) < Rank(from))
  }

  ghost predicate OvertakenForward(b: Board) {
    forall r :: r in b.pending && b.pending[r].over.Some? ==> After(b.pending[r].seen, b.pending[r].over.value)
  }

  lemma AllowedStepKeepsForward(b: Board, step: Step)
    requires Checked(b) && OvertakenForward(b) && Enabled(b, step)
    requires step.Write? ==> b.pending[step.request].to in NextStatuses(b.status[b.pending[step.request].id])
    ensures OvertakenForward(Next(b, step))
  {
    if step.Write? {
      var p := b.pending[step.request];
      TransitionSpendsRank(b.status[p.id], p.to);
      forall r | r in b.pending && b.pending[r].id == p.id ensures After(b.pending[r].seen, p.to) {
        MoveGoesAfter(b.pending[r].seen, Finds(b.pending[r]), p.to);
      }
    }
  }

  lemma MoveGoesAfter(seen: Status, found: Status, to: Status)
    requires found == seen || After(seen, found)
    requires to in NextStatuses(found)
    ensures After(seen, to)
  {
  }

  predicate IsFlip(from: Status, to: Status) {
    (from == Status.Open && to == Paused) || (from == Paused && to == Status.Open)
  }

  /** An overtaken move does no harm: the requisition has not ended, and the move ends it
      or is an OPEN/PAUSED flip. */
  predicate Harmless(p: Pending) {
    p.over.Some? ==> !Terminal(p.over.value) && (Terminal(p.to) || IsFlip(p.over.value, p.to))
  }

  lemma HarmlessExactlyWhenAllowed(p: Pending)
    requires p.to in NextStatuses(p.seen) && (p.over.Some? ==> After(p.seen, p.over.value))
    ensures Harmless(p) <==> p.to in NextStatuses(Finds(p))
  {
  }

  ghost predicate HarmlessWrites(b: Board, steps: seq<Step>)
    requires Possible(b, steps)
    decreases |steps|
  {
    steps != [] ==>
      && (steps[0].Write? ==> Harmless(b.pending[steps[0].request]))
      && HarmlessWrites(Next(b, steps[0]), steps[1..])
  }

  lemma {:induction false} RunWalksExactlyWhenHarmless(b: Board, steps: seq<Step>)
    requires Walking(b) && Checked(b) && OvertakenForward(b) && Possible(b, steps)
    ensures AlwaysWalking(b, steps) <==> HarmlessWrites(b, steps)
    decreases |steps|
  {
    if steps != [] {
      var t := Next(b, steps[0]);
      StepKeepsChecked(b, steps[0]);
      if steps[0].Write? {
        WriteKeepsWalkingExactly(b, steps[0].request);
        HarmlessExactlyWhenAllowed(b.pending[steps[0].request]);
      }
      if Walking(t) {
        AllowedStepKeepsForward(b, steps[0]);
        RunWalksExactlyWhenHarmless(t, steps[1..]);
      }
    }
  }

  /** Every interleaving of checks and writes keeps each requisition to the lifecycle in
      all states exactly when each write that another move of the row has overtaken comes
      before the requisition has ended and ends it or flips it between OPEN and PAUSED. */
  lemma LifecycleSurvivesExactly(steps: seq<Step>)
    requires Possible(INIT, steps)
    ensures AlwaysWalking(INIT, steps) <==> HarmlessWrites(INIT, steps)
  {
    RunWalksExactlyWhenHarmless(INIT, steps);
  }

  lemma {:induction false} AlwaysMeansFinally(b: Board, steps: seq<Step>)
    requires Possible(b, steps) && AlwaysWalking(b, steps)
    ensures Walking(Exec(b, steps))
    decreases |steps|
  {
    if steps != [] { AlwaysMeansFinally(Next(b, steps[0]), steps[1..]); }
  }

  /** No move of a row is written between another's check and its write. */
  ghost predicate Orderly(b: Board, steps: seq<Step>)
    requires Possible(b, steps)
    decreases |steps|
  {
    steps != [] ==>
      && (steps[0].Write? ==> b.pending[steps[0].request].over.None?)
      && Orderly(Next(b, steps[0]), steps[1..])
  }

  /** Each write finds the status that its request read. */
  ghost predicate FindsWhatItRead(b: Board, steps: seq<Step>)
    requires Possible(b, steps)
    decreases |steps|
  {
    steps != [] ==>
      && (steps[0].Write? ==> Finds(b.pending[steps[0].request]) == b.pending[steps[0].request].seen)
      && FindsWhatItRead(Next(b, steps[0]), steps[1..])
  }

  /** What is written over is what was read. */
  predicate Faithful(w: Written) {
    w.before == w.seen
  }

  ghost predicate AllFaithful(written: seq<Written>) {
    forall i :: 0 <= i < |written| ==> Faithful(written[i])
  }

  lemma {:induction false} WrittenOnlyGrows(b: Board, steps: seq<Step>)
    requires Possible(b, steps)
    ensures |b.written| <= |Exec(b, steps).written| && Exec(b, steps).written[..|b.written|] == b.written
    decreases |steps|
  {
    if steps != [] {
      var t := Next(b, steps[0]);
      WrittenOnlyGrows(t, steps[1..]);
      assert t.written[..|b.written|] == b.written;
    }
  }

  /** The trail tells the truth about what was replaced exactly when no overtaking move
      has left anything but what was read. */
  lemma {:induction false} TrailIsTrueExactly(b: Board, steps: seq<Step>)
    requires Checked(b) && Possible(b, steps) && AllFaithful(b.written)
    ensures AllFaithful(Exec(b, steps).written) <==> FindsWhatItRead(b, steps)
    decreases |steps|
  {
    if steps != [] {
      var t := Next(b, steps[0]);
      StepKeepsChecked(b, steps[0]);
      assert Exec(b, steps) == Exec(t, steps[1..]);
      if steps[0].Write? {
        var p := b.pending[steps[0].request];
        assert t.written[|b.written|] == Written(p.id, Finds(p), p.seen, p.to);
      }
      if AllFaithful(t.written) {
        TrailIsTrueExactly(t, steps[1..]);
      } else {
        WrittenOnlyGrows(t, steps[1..]);
        var i :| 0 <= i < |t.written| && !Faithful(t.written[i]);
        assert Exec(t, steps[1..]).written[i] == t.written[i];
      }
    }
  }

  lemma {:induction false} OrderlyIsHarmless(b: Board, steps: seq<Step>)
    requires Possible(b, steps) && Orderly(b, steps)
    ensures HarmlessWrites(b, steps) && FindsWhatItRead(b, steps)
    decreases |steps|
  {
    if steps != [] { OrderlyIsHarmless(Next(b, steps[0]), steps[1..]); }
  }

  /** In every interleaving in which no overtaken request writes, each requisition walks
      the lifecycle table, at most three of its moves are not OPEN/PAUSED flips, and the
      trail reports what happened. */
  lemma OrderlyRunsKeepLifecycle(steps: seq<Step>, id: string)
    requires Possible(INIT, steps) && Orderly(INIT, steps) && id in Exec(INIT, steps).status
    ensures var b := Exec(INIT, steps);
            && Walk(MovesFor(b.written, id), b.status[id])
            && Progress(MovesFor(b.written, id)) + Rank(b.status[id]) <= 3
            && AllFaithful(b.written)
  {
    OrderlyIsHarmless(INIT, steps);
    LifecycleSurvivesExactly(steps);
    AlwaysMeansFinally(INIT, steps);
    TrailIsTrueExactly(INIT, steps);
    WalkSpendsRank(MovesFor(Exec(INIT, steps).written, id), Exec(INIT, steps).status[id]);
  }

  // ----- when it does not -----

  lemma {:induction false} ExecConcat(b: Board, xs: seq<Step>, ys: seq<Step>)
    requires Possible(b, xs) && Possible(Exec(b, xs), ys)
    ensures Possible(b, xs + ys) && Exec(b, xs + ys) == Exec(Exec(b, xs), ys)
    decreases |xs|
  {
    if xs == [] {
      assert xs + ys == ys;
    } else {
      ExecConcat(Next(b, xs[0]), xs[1..], ys);
      assert (xs + ys)[0] == xs[0] && (xs + ys)[1..] == xs[1..] + ys;
    }
  }

  lemma TwoSteps(b: Board, s1: Step, s2: Step)
    requires Enabled(b, s1) && Enabled(Next(b, s1), s2)
    ensures Possible(b, [s1, s2]) && Exec(b, [s1, s2]) == Next(Next(b, s1), s2)
  {
    var c := Next(b, s1);
    assert [s1, s2][1..] == [s2] && [s2][1..] == [];
    assert Possible(Next(c, s2), []) && Exec(Next(c, s2), []) == Next(c, s2);
    assert Possible(c, [s2]) && Exec(c, [s2]) == Next(c, s2);
  }

  /** Two requests that read one status and both pass the check both write. The row ends
      with the second move, which the table allows from where the first led exactly when
      it lists it there; the trail reports it as a move from the status that was read,
      which is not the status that it replaced. */
  lemma SecondWriterOverridesFirst(b: Board, r: nat, r': nat, id: string, first: Status, second: Status)
    requires r !in b.pending && r' !in b.pending && r != r' && id in b.status
    requires first in NextStatuses(b.status[id]) && second in NextStatuses(b.status[id])
    ensures var steps := [Check(r, id, first), Check(r', id, second)] + [Write(r), Write(r')];
            var was := b.status[id];
            && Possible(b, steps)
            && Exec(b, steps).status == b.status[id := second]
            && Exec(b, steps).written == b.written + [Written(id, was, was, first), Written(id, first, was, second)]
            && Exec(b, steps).pending.Keys == b.pending.Keys
            && !Faithful(Written(id, first, was, second))
            && (Walking(b) ==> (Walking(Exec(b, steps)) <==> second in NextStatuses(first)))
  {
    var s1 := Next(b, Check(r, id, first));
    var s2 := Next(s1, Check(r', id, second));
    var s3 := Next(s2, Write(r));
    var s4 := Next(s3, Write(r'));
    TwoSteps(b, Check(r, id, first), Check(r', id, second));
    TwoSteps(s2, Write(r), Write(r'));
    ExecConcat(b, [Check(r, id, first), Check(r', id, second)], [Write(r), Write(r')]);
    NoStatusPrecedesItself(b.status[id], first);
    assert s4.written == b.written + [Written(id, b.status[id], b.status[id], first), Written(id, first, b.status[id], second)];
    assert s4.status == b.status[id := second];
    assert s4.pending.Keys == b.pending.Keys;
    if Walking(b) {
      assert Walking(s2);
      WriteKeepsWalkingExactly(s2, r);
      WriteKeepsWalkingExactly(s3, r');
    }
  }

  lemma NoStatusPrecedesItself(s: Status, t: Status)
    requires t in NextStatuses(s)
    ensures t != s
  {
  }

  /** The run of a race between FILLED and PAUSED, and of a later opening. */
  function Race(r: nat, r': nat, id: string): seq<Step> {
    [Check(r, id, Filled), Check(r', id, Paused)] + [Write(r), Write(r')]
  }

  function Reopening(r: nat, id: string): seq<Step> {
    [Check(r, id, Status.Open), Write(r)]
  }

  /** So a requisition that was FILLED can become PAUSED: its run leaves the lifecycle. */
  lemma FilledCanBePaused(b: Board, r: nat, r': nat, id: string)
    requires Walking(b) && r !in b.pending && r' !in b.pending && r != r' && id in b.status && b.status[id] == Status.Open
    ensures Possible(b, Race(r, r', id))
    ensures var c := Exec(b, Race(r, r', id));
            && !Walking(c) && r !in c.pending && c.status == b.status[id := Paused]
            && c.written == b.written + [Written(id, Status.Open, Status.Open, Filled), Written(id, Filled, Status.Open, Paused)]
  {
    SecondWriterOverridesFirst(b, r, r', id, Filled, Paused);
  }

  lemma PausedCanBeOpened(b: Board, r: nat, id: string)
    requires r !in b.pending && id in b.status && b.status[id] == Paused
    ensures Possible(b, Reopening(r, id))
    ensures Exec(b, Reopening(r, id)).status == b.status[id := Status.Open]
    ensures Exec(b, Reopening(r, id)).written == b.written + [Written(id, Paused, Paused, Status.Open)]
  {
    TwoSteps(b, Check(r, id, Status.Open), Write(r));
  }

  lemma OpenedAfter(b: Board, steps: seq<Step>, r: nat, id: string, written: seq<Written>)
    requires Possible(b, steps) && r !in Exec(b, steps).pending
    requires Exec(b, steps).status == b.status[id := Paused] && Exec(b, steps).written == written
    ensures Possible(b, steps + Reopening(r, id))
    ensures Exec(b, steps + Reopening(r, id)).status == b.status[id := Status.Open]
    ensures Exec(b, steps + Reopening(r, id)).written == written + [Written(id, Paused, Paused, Status.Open)]
  {
    PausedCanBeOpened(Exec(b, steps), r, id);
    ExecConcat(b, steps, Reopening(r, id));
  }

  /** And from there it is opened, so that it is public again after it was FILLED. */
  lemma FilledCanBePublicAgain(b: Board, r: nat, r': nat, id: string)
    requires Walking(b) && r !in b.pending && r' !in b.pending && r != r' && id in b.status && b.status[id] == Status.Open
    ensures var steps := Race(r, r', id) + Reopening(r, id);
            && Possible(b, steps)
            && Exec(b, steps).status == b.status[id := Status.Open]
            && Exec(b, steps).written ==
               b.written + [Written(id, Status.Open, Status.Open, Filled), Written(id, Filled, Status.Open, Paused)] +
               [Written(id, Paused, Paused, Status.Open)]
  {
    FilledCanBePaused(b, r, r', id);
    OpenedAfter(b, Race(r, r', id), r, id,
                b.written + [Written(id, Status.Open, Status.Open, Filled), Written(id, Filled, Status.Open, Paused)]);
  }

  // ----- the atomic operations as runs of these steps -----

  /** The board shows the statuses of the table. */
  ghost predicate Shows(b: Board, rows: seq<Job>) {
    forall id :: (id in b.status <==> HasId(rows, id)) && (HasId(rows, id) ==> b.status[id] == rows[IndexOf(rows, id)].status)
  }

  lemma {:induction false} IndexOfReplaced(rows: seq<Job>, i: nat, job: Job, id: string)
    requires i < |rows| && job.id == rows[i].id
    ensures HasId(rows[i := job], id) <==> HasId(rows, id)
    ensures HasId(rows, id) ==> IndexOf(rows[i := job], id) == IndexOf(rows, id)
  {
    var rows' := rows[i := job];
    if HasId(rows, id) {
      var k :| 0 <= k < |rows| && rows[k].id == id;
      assert rows'[k].id == id;
      if rows[0].id != id {
        assert rows[1..][k - 1].id == id;
        if i == 0 {
          assert rows'[1..] == rows[1..];
        } else {
          assert rows'[1..] == rows[1..][i - 1 := job];
          IndexOfReplaced(rows[1..], i - 1, job, id);
        }
      }
    }
    if HasId(rows', id) {
      var k :| 0 <= k < |rows'| && rows'[k].id == id;
      assert rows[k].id == id;
    }
  }

  lemma ReplacedShows(b: Board, rows: seq<Job>, id: string, job: Job)
    requires Shows(b, rows) && HasId(rows, id) && job.id == id
    ensures Shows(b.(status := b.status[id := job.status]), rows[IndexOf(rows, id) := job])
  {
    forall k ensures HasId(rows[IndexOf(rows, id) := job], k) <==> HasId(rows, k)
             ensures HasId(rows, k) ==> IndexOf(rows[IndexOf(rows, id) := job], k) == IndexOf(rows, k) {
      IndexOfReplaced(rows, IndexOf(rows, id), job, k);
    }
  }

  /** An atomic transition is a check and its write without interruption: possible together
      or refused together, with the same table and a report of what was replaced. */
  lemma TransitionIsCheckAndWrite(w: Writer, s: State, b: Board, r: nat, id: string, to: Status, actor: string,
                                  reason: Option<string>, now: int, stored: bool)
    requires Shows(b, s.rows) && r !in b.pending
    ensures var t := AfterTransition(w, s, id, to, actor, reason, now, stored);
            var steps := [Check(r, id, to), Write(r)];
            if Enabled(b, Check(r, id, to)) then
              && Possible(b, steps) && Shows(Exec(b, steps), t.rows)
              && Exec(b, steps).written == b.written + [Written(id, b.status[id], b.status[id], to)]
              && t.attempts == s.attempts + [Attempt(Moved(actor, id, b.status[id], to, reason), stored)]
            else t == s
  {
    if Enabled(b, Check(r, id, to)) {
      var i := IndexOf(s.rows, id);
      var job := s.rows[i].(status := to, lastVerifiedAt := now);
      TwoSteps(b, Check(r, id, to), Write(r));
      ReplacedShows(b, s.rows, id, job);
    }
  }

  /** Creating a requisition opens its entry on the board; editing one leaves the board. */
  lemma CreateAndUpdateOnBoard(w: Writer, s: State, b: Board, op: Op)
    requires Shows(b, s.rows) && (op.Create? || op.Update?)
    ensures var t := CareersService.Step(w, s, op);
            if op.Create? && CreateError(s.rows, op.draft, op.id).None?
            then Enabled(b, Step.Open(op.id)) && Shows(Next(b, Step.Open(op.id)), t.rows)
            else Shows(b, t.rows)
  {
    if op.Create? && CreateError(s.rows, op.draft, op.id).None? {
      AppendedShows(b, s.rows, DraftRow(op.draft, op.id, op.actor, op.postedAt, op.verifiedAt));
    } else if op.Update? && HasId(s.rows, op.id) {
      var i := IndexOf(s.rows, op.id);
      FieldsKeepIdentity(s.rows[i], op.fields);
      var job := ApplyFields(s.rows[i], op.fields).(lastVerifiedAt := op.now);
      ReplacedShows(b, s.rows, op.id, job);
      assert b.status[op.id := job.status] == b.status;
    }
  }

  lemma AppendedShows(b: Board, rows: seq<Job>, job: Job)
    requires Shows(b, rows) && !HasId(rows, job.id) && job.status == Draft
    ensures Shows(b.(status := b.status[job.id := Draft]), rows + [job])
  {
    forall k ensures HasId(rows + [job], k) <==> HasId(rows, k) || k == job.id
             ensures HasId(rows + [job], k) ==> IndexOf(rows + [job], k) == if HasId(rows, k) then IndexOf(rows, k) else |rows| {
      IndexOfAppended(rows, job, k);
    }
  }

  lemma {:induction false} IndexOfAppended(rows: seq<Job>, job: Job, id: string)
    ensures HasId(rows + [job], id) <==> HasId(rows, id) || id == job.id
    ensures HasId(rows + [job], id) ==> IndexOf(rows + [job], id) == if HasId(rows, id) then IndexOf(rows, id) else |rows|
  {
    var rows' := rows + [job];
    if HasId(rows, id) { assert rows'[IndexOf(rows, id)].id == id; }
    if id == job.id { assert rows'[|rows|].id == id; }
    if HasId(rows', id) {
      var k :| 0 <= k < |rows'| && rows'[k].id == id;
      if rows != [] {
        assert rows'[1..] == rows[1..] + [job];
        IndexOfAppended(rows[1..], job, id);
        if rows[0].id != id && HasId(rows, id) { assert rows[1..][IndexOf(rows, id) - 1].id == id; }
        if HasId(rows[1..], id) { assert rows[IndexOf(rows[1..], id) + 1].id == id; }
      }
    }
  }
}
