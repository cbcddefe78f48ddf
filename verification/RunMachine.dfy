/**
 The crash-safe Run reconcile machine: a durable step and fence, idempotent effects, and a
 conditional step-advance that writes its audit row and outbox event in the same transaction.
 */
module RunStore {
  import opened Basics

  /** reconcile_step. `OffPath` stands for the paused family and cancelling, which this machine never advances. */
  datatype Step =
    | Pending | ClaimingSandbox | Dispatching | Running | Collecting
    | Succeeded | Failed | Cancelled
    | OffPath(name: string)

  predicate IsTerminal(s: Step) { s.Succeeded? || s.Failed? || s.Cancelled? }

  /** The happy path; None at its end and off it. */
  function Next(s: Step): Option<Step> {
    match s
    case Pending => Some(ClaimingSandbox)
    case ClaimingSandbox => Some(Dispatching)
    case Dispatching => Some(Running)
    case Running => Some(Collecting)
    case Collecting => Some(Succeeded)
    case _ => None
  }

  /** An audit row: one committed transition, its fence and retry lap, and the task id its author drives. */
  datatype Edge = Edge(from: Step, to: Step, fence: int, lap: nat, task: TaskId)

  /** The durable record of a Run. `lap` counts the retry re-entries. */
  datatype Store = Store(step: Step, fence: int, lap: nat, audit: seq<Edge>, outbox: seq<Edge>)

  /** a2a_task_id: the run id, or the run id with the retry lap the leader was started for. */
  datatype TaskId = FirstAttempt | RetryAttempt(lap: int)

  function TaskOf(lap: Option<int>): TaskId {
    if lap.None? then FirstAttempt else RetryAttempt(lap.value)
  }

  const RUN_ID: string := "run-1"
  const PATCH: string := "run-1/patch"
  const DIFF: string := "diff-bytes"

  /** The outside world. `terminals` lists the audit rows whose terminal transition was announced. */
  datatype World = World(binds: seq<string>, executions: seq<TaskId>, artifacts: map<string, string>, terminals: seq<nat>)

  const EMPTY_WORLD := World([], [], map[], [])

  // ---------- effects ----------

  function BindSandbox(w: World): World {
    if RUN_ID in w.binds then w else w.(binds := w.binds + [RUN_ID])
  }

  function Dispatch(w: World, task: TaskId): World {
    if task in w.executions then w else w.(executions := w.executions + [task])
  }

  function Collect(w: World): World { w.(artifacts := w.artifacts[PATCH := DIFF]) }

  /** The external effect of one step. */
  function Effect(w: World, step: Step, task: TaskId): World {
    match step
    case ClaimingSandbox => BindSandbox(w)
    case Dispatching => Dispatch(w, task)
    case Collecting => Collect(w)
    case _ => w
  }

  /** The effect of this step has happened. */
  predicate Applied(w: World, step: Step, task: TaskId) {
    && (step.ClaimingSandbox? ==> RUN_ID in w.binds)
    && (step.Dispatching? ==> task in w.executions)
    && (step.Collecting? ==> PATCH in w.artifacts)
  }

  /** Nothing in the world happened twice. */
  ghost predicate AtMostOnce(w: World) {
    && Distinct(w.binds) && (forall b | b in w.binds :: b == RUN_ID)
    && Distinct(w.executions)
    && (forall key | key in w.artifacts :: key == PATCH && w.artifacts[key] == DIFF)
    && Distinct(w.terminals)
  }

  /** Effects are never undone. */
  ghost predicate Extends(old_: World, w: World) {
    && (forall b | b in old_.binds :: b in w.binds)
    && (forall t | t in old_.executions :: t in w.executions)
    && (forall k | k in old_.artifacts :: k in w.artifacts)
  }

  /** Firing an effect again, by anyone, never repeats it, and it leaves the effect applied. */
  lemma EffectIsIdempotent(w: World, step: Step, task: TaskId)
    requires AtMostOnce(w)
    ensures AtMostOnce(Effect(w, step, task)) && Extends(w, Effect(w, step, task))
    ensures Applied(Effect(w, step, task), step, task)
    ensures Effect(Effect(w, step, task), step, task) == Effect(w, step, task)
  {
  }

  // ---------- the durable store ----------

  /** UPDATE ... WHERE reconcile_step = expected AND fence_token = fence, with its audit and outbox rows. */
  function Advance(s: Store, expected: Step, next: Step, fence: int, task: TaskId): (Store, bool) {
    if s.step == expected && s.fence == fence then
      var row := Edge(expected, next, fence, s.lap, task);
      (s.(step := next, audit := s.audit + [row], outbox := s.outbox + [row]), true)
    else (s, false)
  }

  /** The fence-first reclaim: the token only rises. */
  function Reclaim(s: Store, fence: int): Store {
    if fence > s.fence then s.(fence := fence) else s
  }

  /**
   A retry lap: the fence is raised and the step re-pointed to claiming in one transaction. The driver enters
   one after a death at a step that is not terminal; the machine's own contract also allows it from failed.
   */
  function RetryEnter(s: Store, fence: int): Store {
    if (s.step.Failed? || !IsTerminal(s.step)) && fence > s.fence then
      s.(fence := fence, step := ClaimingSandbox, lap := s.lap + 1)
    else s
  }

  /** The retry budget is spent: the fence is raised and the step re-pointed to failed; a terminal step stays. */
  function FailEnter(s: Store, fence: int): Store {
    if !IsTerminal(s.step) && fence > s.fence then s.(fence := fence, step := Failed) else s
  }

  function Rank(s: Step): nat {
    match s
    case Pending => 0
    case ClaimingSandbox => 1
    case Dispatching => 2
    case Running => 3
    case Collecting => 4
    case _ => 5
  }

  /** Where an advance from `step` leads: the happy path, or the Failed edge. */
  predicate LegalEdge(from: Step, to: Step) {
    Next(from).Some? && (to == Next(from).value || to.Failed?)
  }

  /** One audit row against the current record. */
  ghost predicate RowOk(s: Store, e: Edge) {
    && LegalEdge(e.from, e.to) && e.lap <= s.lap && e.fence <= s.fence
    && (e.lap == s.lap ==> Rank(e.from) < Rank(s.step))
  }

  /** Row e was written before row f: laps and fences never fall, and a lap only moves forward. */
  ghost predicate Before(e: Edge, f: Edge) {
    e.lap <= f.lap && e.fence <= f.fence && (e.lap == f.lap ==> Rank(e.from) < Rank(f.from))
  }

  /** The audit log of a Run: legal edges, strictly forward within a lap, one outbox event per row. */
  ghost predicate Journaled(s: Store) {
    && s.outbox == s.audit
    && (forall i | 0 <= i < |s.audit| :: RowOk(s, s.audit[i]))
    && (forall i, j | 0 <= i < j < |s.audit| :: Before(s.audit[i], s.audit[j]))
  }

  lemma AdvanceKeepsJournal(s: Store, expected: Step, next: Step, fence: int, task: TaskId)
    requires Journaled(s) && LegalEdge(expected, next)
    ensures Journaled(Advance(s, expected, next, fence, task).0)
  {
    var (t, committed) := Advance(s, expected, next, fence, task);
    if committed {
      forall i | 0 <= i < |s.audit| ensures RowOk(t, t.audit[i]) && Before(t.audit[i], t.audit[|s.audit|]) {
        assert RowOk(s, s.audit[i]) && t.audit[i] == s.audit[i];
      }
      forall i, j | 0 <= i < j < |t.audit| ensures Before(t.audit[i], t.audit[j]) {
        if j < |s.audit| { assert Before(s.audit[i], s.audit[j]); }
      }
    }
  }

  lemma RetryKeepsJournal(s: Store, fence: int)
    requires Journaled(s)
    ensures Journaled(RetryEnter(s, fence)) && Journaled(FailEnter(s, fence)) && Journaled(Reclaim(s, fence))
  {
  }

  /** What the driver's three interventions do to the record, exactly: nothing else about it changes. */
  lemma InterventionsExactly(s: Store, fence: int)
    ensures Reclaim(s, fence) == s.(fence := if fence > s.fence then fence else s.fence)
    ensures fence > s.fence && s.step != Succeeded && s.step != Cancelled ==>
      RetryEnter(s, fence) == Store(ClaimingSandbox, fence, s.lap + 1, s.audit, s.outbox)
    ensures fence <= s.fence || s.step == Succeeded || s.step == Cancelled ==> RetryEnter(s, fence) == s
    ensures fence > s.fence && s.step !in {Succeeded, Failed, Cancelled} ==>
      FailEnter(s, fence) == Store(Failed, fence, s.lap, s.audit, s.outbox)
    ensures fence <= s.fence || s.step in {Succeeded, Failed, Cancelled} ==> FailEnter(s, fence) == s
  {
  }

  /** Each step touches only its own part of the world: the sandbox, the executions or the artifacts; the others none. */
  lemma EffectTouchesItsOwn(w: World, step: Step, task: TaskId)
    ensures var v := Effect(w, step, task);
      && v.terminals == w.terminals
      && (v.binds != w.binds ==> step == ClaimingSandbox && v.binds == w.binds + ["run-1"])
      && (v.executions != w.executions ==> step == Dispatching && v.executions == w.executions + [task])
      && (v.artifacts != w.artifacts ==> step == Collecting && v.artifacts == w.artifacts["run-1/patch" := "diff-bytes"])
  {
  }

  /** Row f continues where row e left off, or opens a later lap at claiming. */
  ghost predicate Follows(e: Edge, f: Edge) {
    (f.lap == e.lap && f.from == e.to) || (f.lap > e.lap && f.from.ClaimingSandbox?)
  }

  /** Where a lap starts: admission for the first, claiming for a retry. */
  ghost predicate Opens(step: Step, lap: nat) { if lap == 0 then step.Pending? else step.ClaimingSandbox? }

  /**
   The audit log is one unbroken chain from admission to the present step, lap after lap: within a lap each
   row starts where the one before it ended, and a lap starts where laps start. Only the driver's own entry
   into failed ends a lap without a row of the machine.
   */
  ghost predicate Chained(s: Store) {
    && (s.audit == [] ==> Opens(s.step, s.lap) || s.step.Failed?)
    && (s.audit != [] ==> Opens(s.audit[0].from, s.audit[0].lap))
    && (forall i | 0 <= i < |s.audit| - 1 :: Follows(s.audit[i], s.audit[i + 1]))
    && (s.audit != [] ==>
          var e := s.audit[|s.audit| - 1];
          (s.lap == e.lap && s.step == e.to) || (s.lap > e.lap && s.step.ClaimingSandbox?) || s.step.Failed?)
    && (s.audit != [] ==> s.audit[|s.audit| - 1].lap <= s.lap)
  }

  lemma AdvanceKeepsChain(s: Store, expected: Step, next: Step, fence: int, task: TaskId)
    requires Chained(s) && LegalEdge(expected, next)
    ensures Chained(Advance(s, expected, next, fence, task).0)
  {
    var t := Advance(s, expected, next, fence, task).0;
    forall i | 0 <= i < |t.audit| - 1 ensures Follows(t.audit[i], t.audit[i + 1]) {
      if i + 1 < |s.audit| { assert Follows(s.audit[i], s.audit[i + 1]); }
    }
  }

  lemma ReentryKeepsChain(s: Store, fence: int)
    requires Chained(s)
    ensures Chained(Reclaim(s, fence)) && Chained(RetryEnter(s, fence)) && Chained(FailEnter(s, fence))
  {
  }

  ghost predicate Moves(e: Edge, from: Step, to: Step, lap: nat) { e.from == from && e.to == to && e.lap == lap }

  /** The log ends with the four transitions from claiming to succeeded, all of the present lap. */
  ghost predicate EndsWithFullLap(s: Store) {
    var n := |s.audit|;
    && n >= 4
    && Moves(s.audit[n - 4], ClaimingSandbox, Dispatching, s.lap) && Moves(s.audit[n - 3], Dispatching, Running, s.lap)
    && Moves(s.audit[n - 2], Running, Collecting, s.lap) && Moves(s.audit[n - 1], Collecting, Succeeded, s.lap)
  }

  lemma SuccessEndsOneLap(s: Store)
    requires Chained(s) && s.step.Succeeded? && Journaled(s)
    ensures EndsWithFullLap(s)
  {
    var n := |s.audit|;
    assert RowOk(s, s.audit[n - 1]);
    assert n > 1 && Follows(s.audit[n - 2], s.audit[n - 1]) && RowOk(s, s.audit[n - 2]);
    assert n > 2 && Follows(s.audit[n - 3], s.audit[n - 2]) && RowOk(s, s.audit[n - 3]);
    assert n > 3 && Follows(s.audit[n - 4], s.audit[n - 3]) && RowOk(s, s.audit[n - 4]);
  }
}

/**
 Any number of leaders, zombies and successors driving one Run at once. A leader's program counter
 sits between its reads, effects and writes; it can die at any of these points.
 */
module RunRace {
  import opened Basics
  import opened RunStore

  datatype Pc =
    | Reading               // about to read the durable step
    | Acting(step: Step)    // read it; about to fire its effect
    | Advancing(step: Step) // effect applied; about to commit the advance
    | Announcing(row: nat)  // committed a terminal advance as audit row `row`; about to announce it
    | Returned

  /** A leader: the fence it was started with, its retry lap, and the step it diverts to Failed, if any. */
  datatype Leader = Leader(fence: int, lap: Option<int>, failAt: Option<Step>, pc: Pc)

  datatype State = State(store: Store, world: World, leaders: map<nat, Leader>)

  datatype Action =
    | Elect(id: nat, fence: int, lap: Option<int>, failAt: Option<Step>)
    | Move(id: nat, effectWorks: bool)
    | Crash(id: nat)
    | ReclaimTo(fence: int)
    | Retry(fence: int)
    | GiveUp(fence: int)

  function At(s: State, id: nat, pc: Pc): State
    requires id in s.leaders
  {
    s.(leaders := s.leaders[id := s.leaders[id].(pc := pc)])
  }

  /** The step an advance of this leader commits to. */
  function Target(l: Leader, step: Step): Step
    requires Next(step).Some?
  {
    if l.failAt == Some(step) then Failed else Next(step).value
  }

  function MoveLeader(s: State, id: nat, effectWorks: bool): State
    requires id in s.leaders
  {
    var l := s.leaders[id];
    match l.pc
    case Returned => s
    case Reading => At(s, id, if IsTerminal(s.store.step) then Returned else Acting(s.store.step))
    case Acting(step) =>
      if !effectWorks then At(s, id, Returned)
      else At(s.(world := Effect(s.world, step, TaskOf(l.lap))), id, Advancing(step))
    case Advancing(step) =>
      if Next(step).None? then At(s, id, Reading)
      else
        var (store, committed) := Advance(s.store, step, Target(l, step), l.fence, TaskOf(l.lap));
        At(s.(store := store), id,
           if committed && IsTerminal(store.step) then Announcing(|s.store.audit|) else Reading)
    case Announcing(row) =>
      At(s.(world := s.world.(terminals := s.world.terminals + [row])), id, Reading)
  }

  function StepOf(s: State, a: Action): State {
    match a
    case Elect(id, fence, lap, failAt) =>
      if id in s.leaders then s else s.(leaders := s.leaders[id := Leader(fence, lap, failAt, Reading)])
    case Move(id, effectWorks) => if id in s.leaders then MoveLeader(s, id, effectWorks) else s
    case Crash(id) => s.(leaders := s.leaders - {id})
    case ReclaimTo(fence) => s.(store := Reclaim(s.store, fence))
    case Retry(fence) => s.(store := RetryEnter(s.store, fence))
    case GiveUp(fence) => s.(store := FailEnter(s.store, fence))
  }

  function StateAt(s: State, acts: seq<Action>, k: nat): State
    requires k <= |acts|
  {
    if k == 0 then s else StepOf(StateAt(s, acts, k - 1), acts[k - 1])
  }

  /** Admission: pending, fence 1, nothing done. */
  predicate Initial(s: State) {
    s == State(Store(Pending, 1, 0, [], []), EMPTY_WORLD, map[])
  }

  // ---------- the invariant ----------

  ghost predicate LeaderOk(s: State, id: nat)
    requires id in s.leaders
  {
    var l := s.leaders[id];
    && (l.pc.Advancing? ==> Applied(s.world, l.pc.step, TaskOf(l.lap)))
    && (l.pc.Announcing? ==>
          && l.pc.row < |s.store.audit| && IsTerminal(s.store.audit[l.pc.row].to)
          && l.pc.row !in s.world.terminals)
  }

  ghost predicate Announces(s: State, id: nat, row: nat) {
    id in s.leaders && s.leaders[id].pc == Announcing(row)
  }

  /** No committed transition, of any lap, outran its effect: a dispatch row's own task was executed. */
  ghost predicate EffectsPrecedeAdvances(s: State) {
    forall i | 0 <= i < |s.store.audit| :: Applied(s.world, s.store.audit[i].from, s.store.audit[i].task)
  }

  ghost predicate Inv(s: State) {
    && Journaled(s.store)
    && AtMostOnce(s.world)
    && (forall id | id in s.leaders :: LeaderOk(s, id))
    && (forall a, b, row | Announces(s, a, row) && Announces(s, b, row) :: a == b)
    && (forall row | row in s.world.terminals :: row < |s.store.audit| && IsTerminal(s.store.audit[row].to))
    && EffectsPrecedeAdvances(s)
  }

  lemma ActKeepsInv(s: State, id: nat)
    requires Inv(s) && id in s.leaders && s.leaders[id].pc.Acting?
    ensures Inv(MoveLeader(s, id, true))
  {
    var l := s.leaders[id];
    var t := MoveLeader(s, id, true);
    EffectIsIdempotent(s.world, l.pc.step, TaskOf(l.lap));
    forall i | i in t.leaders ensures LeaderOk(t, i) { assert LeaderOk(s, i); }
    forall a, b, row | Announces(t, a, row) && Announces(t, b, row) ensures a == b {
      assert Announces(s, a, row) && Announces(s, b, row);
    }
  }

  lemma AdvanceKeepsInv(s: State, id: nat)
    requires Inv(s) && id in s.leaders && s.leaders[id].pc.Advancing?
    ensures Inv(MoveLeader(s, id, true))
  {
    var l := s.leaders[id];
    var step := l.pc.step;
    var t := MoveLeader(s, id, true);
    assert LeaderOk(s, id);
    if Next(step).Some? { AdvanceKeepsJournal(s.store, step, Target(l, step), l.fence, TaskOf(l.lap)); }
    forall i | i in t.leaders ensures LeaderOk(t, i) { assert LeaderOk(s, i); }
    forall i, row: nat | Announces(s, i, row) ensures row < |s.store.audit| { assert LeaderOk(s, i); }
    forall a, b, row | Announces(t, a, row) && Announces(t, b, row) ensures a == b {
      assert (a != id ==> Announces(s, a, row)) && (b != id ==> Announces(s, b, row));
    }
  }

  lemma AnnounceKeepsInv(s: State, id: nat)
    requires Inv(s) && id in s.leaders && s.leaders[id].pc.Announcing?
    ensures Inv(MoveLeader(s, id, true))
  {
    var row := s.leaders[id].pc.row;
    var t := MoveLeader(s, id, true);
    assert LeaderOk(s, id) && Announces(s, id, row);
    forall i | i in t.leaders ensures LeaderOk(t, i) {
      assert LeaderOk(s, i);
      if i != id && s.leaders[i].pc.Announcing? { assert Announces(s, i, s.leaders[i].pc.row); }
    }
    forall a, b, r | Announces(t, a, r) && Announces(t, b, r) ensures a == b {
      assert Announces(s, a, r) && Announces(s, b, r);
    }
  }

  lemma OtherActionKeepsInv(s: State, a: Action)
    requires Inv(s)
    requires a.Move? ==> a.id !in s.leaders || s.leaders[a.id].pc.Reading? || s.leaders[a.id].pc.Returned?
                         || (s.leaders[a.id].pc.Acting? && !a.effectWorks)
    ensures Inv(StepOf(s, a))
  {
    var t := StepOf(s, a);
    if a.ReclaimTo? || a.Retry? || a.GiveUp? { RetryKeepsJournal(s.store, a.fence); }
    forall i | i in t.leaders ensures LeaderOk(t, i) { if i in s.leaders { assert LeaderOk(s, i); } }
    forall x, y, row | Announces(t, x, row) && Announces(t, y, row) ensures x == y {
      assert Announces(s, x, row) && Announces(s, y, row);
    }
  }

  lemma StepKeepsInv(s: State, a: Action)
    requires Inv(s)
    ensures Inv(StepOf(s, a))
  {
    if a.Move? && a.id in s.leaders {
      var pc := s.leaders[a.id].pc;
      if pc.Acting? && a.effectWorks { ActKeepsInv(s, a.id); }
      else if pc.Advancing? { AdvanceKeepsInv(s, a.id); }
      else if pc.Announcing? { AnnounceKeepsInv(s, a.id); }
      else { OtherActionKeepsInv(s, a); }
    } else {
      OtherActionKeepsInv(s, a);
    }
  }

  /**
   Safety over every interleaving of leaders, zombies, crashes, reclaims and retries: no effect
   happens twice, no transition outruns its effect, the audit log only moves forward within a lap,
   and audit rows and outbox events agree one to one.
   */
  lemma {:induction false} EveryRunIsSafe(s: State, acts: seq<Action>, k: nat)
    requires Initial(s) && k <= |acts|
    ensures Inv(StateAt(s, acts, k))
    ensures var t := StateAt(s, acts, k); AtMostOnce(t.world) && EffectsPrecedeAdvances(t) && Journaled(t.store)
  {
    if k > 0 {
      EveryRunIsSafe(s, acts, k - 1);
      StepKeepsInv(StateAt(s, acts, k - 1), acts[k - 1]);
    }
  }

  lemma {:induction false} DurableRecordOnlyGrows(s: State, acts: seq<Action>, j: nat, k: nat)
    requires j <= k <= |acts|
    ensures StateAt(s, acts, j).store.fence <= StateAt(s, acts, k).store.fence
    ensures StateAt(s, acts, j).store.audit <= StateAt(s, acts, k).store.audit
    decreases k
  {
    if j < k { DurableRecordOnlyGrows(s, acts, j, k - 1); }
  }

  /** The reclaim zombie: once the fence has moved past a leader's, no move of that leader changes the record again. */
  lemma FencedLeaderNeverCommits(s: State, acts: seq<Action>, j: nat, k: nat)
    requires j <= k < |acts| && acts[k].Move? && acts[k].id in StateAt(s, acts, k).leaders
    requires StateAt(s, acts, k).leaders[acts[k].id].fence < StateAt(s, acts, j).store.fence
    ensures StateAt(s, acts, k + 1).store == StateAt(s, acts, k).store
  {
    DurableRecordOnlyGrows(s, acts, j, k);
  }

  /**
   Fence-first, stated from the action: after a reclaim to f the fence is at least f and the step, the lap and
   the log are as before, and from then on no move of a leader with a smaller fence changes the record.
   */
  lemma ReclaimFencesOut(s: State, acts: seq<Action>, j: nat, k: nat)
    requires j < k < |acts| && acts[j].ReclaimTo? && acts[k].Move? && acts[k].id in StateAt(s, acts, k).leaders
    requires StateAt(s, acts, k).leaders[acts[k].id].fence < acts[j].fence
    ensures var before, after := StateAt(s, acts, j).store, StateAt(s, acts, j + 1).store;
      after == before.(fence := if acts[j].fence > before.fence then acts[j].fence else before.fence)
    ensures StateAt(s, acts, k + 1).store == StateAt(s, acts, k).store
  {
    InterventionsExactly(StateAt(s, acts, j).store, acts[j].fence);
    FencedLeaderNeverCommits(s, acts, j + 1, k);
  }

  /** So does a retry or a give-up that took effect. */
  lemma ReentryFencesOut(s: State, acts: seq<Action>, j: nat, k: nat)
    requires j < k < |acts| && (acts[j].Retry? || acts[j].GiveUp?)
    requires StateAt(s, acts, j + 1).store != StateAt(s, acts, j).store
    requires acts[k].Move? && acts[k].id in StateAt(s, acts, k).leaders
    requires StateAt(s, acts, k).leaders[acts[k].id].fence < acts[j].fence
    ensures StateAt(s, acts, j + 1).store.fence == acts[j].fence
    ensures StateAt(s, acts, j + 1).store.step == if acts[j].Retry? then ClaimingSandbox else Failed
    ensures StateAt(s, acts, k + 1).store == StateAt(s, acts, k).store
  {
    InterventionsExactly(StateAt(s, acts, j).store, acts[j].fence);
    FencedLeaderNeverCommits(s, acts, j + 1, k);
  }

  /**
   What a leader's move does when it is its turn to commit: under the present fence and from the present step
   exactly one row is written, to failed if the leader diverts this step and to the next step otherwise; else
   nothing. A terminal commit is announced next.
   */
  lemma CommitExactly(s: State, id: nat, step: Step)
    requires id in s.leaders && s.leaders[id].pc == Advancing(step) && Next(step).Some?
    ensures var l, t := s.leaders[id], StepOf(s, Move(id, true));
      && t.world == s.world && id in t.leaders
      && (s.store.step != step || s.store.fence != l.fence ==> t.store == s.store && t.leaders[id].pc == Reading)
      && (s.store.step == step && s.store.fence == l.fence ==>
            var to := if l.failAt == Some(step) then Failed else Next(step).value;
            && t.store.step == to && t.store.fence == s.store.fence && t.store.lap == s.store.lap
            && t.store.audit == s.store.audit + [Edge(step, to, l.fence, s.store.lap, TaskOf(l.lap))]
            && t.leaders[id].pc == if to == Failed || to == Succeeded then Announcing(|s.store.audit|) else Reading)
  {
  }

  /** An effect that errs ends the drive with nothing fired and nothing committed; an announcement is made once and named. */
  lemma ErrorsAndAnnouncements(s: State, id: nat, works: bool)
    requires id in s.leaders
    ensures var pc, t := s.leaders[id].pc, StepOf(s, Move(id, works));
      && id in t.leaders
      && (pc.Acting? && !works ==> t.store == s.store && t.world == s.world && t.leaders[id].pc == Returned)
      && (pc.Announcing? ==>
            t.store == s.store && t.world == s.world.(terminals := s.world.terminals + [pc.row]) && t.leaders[id].pc == Reading)
      && (pc.Reading? ==>
            && t.store == s.store && t.world == s.world
            && t.leaders[id].pc == if s.store.step in {Succeeded, Failed, Cancelled} then Returned else Acting(s.store.step))
  {
  }

  /** A leader starts reading with the fence, lap and diversion it was given; a crash removes it and touches nothing durable. */
  lemma ElectionsAndCrashes(s: State, id: nat, fence: int, lap: Option<int>, failAt: Option<Step>)
    ensures id !in s.leaders ==>
      StepOf(s, Elect(id, fence, lap, failAt)) == s.(leaders := s.leaders[id := Leader(fence, lap, failAt, Reading)])
    ensures id in s.leaders ==> StepOf(s, Elect(id, fence, lap, failAt)) == s
    ensures var t := StepOf(s, Crash(id)); t.store == s.store && t.world == s.world && t.leaders == s.leaders - {id}
  {
  }

  /** The same-fence competitor: within a lap every step is left by exactly one committed transition. */
  lemma SplitBrainAdvancesOnce(s: State, acts: seq<Action>, k: nat, i: nat, j: nat)
    requires Initial(s) && k <= |acts| && i < j < |StateAt(s, acts, k).store.audit|
    ensures var log := StateAt(s, acts, k).store.audit;
      log[i].lap == log[j].lap ==> log[i].from != log[j].from
  {
    EveryRunIsSafe(s, acts, k);
    var log := StateAt(s, acts, k).store.audit;
    assert Before(log[i], log[j]);
  }

  // ---------- crash transparency ----------

  /** Single-attempt leaders that do not divert to Failed; crashes and reclaims are free. */
  predicate SingleAttempt(acts: seq<Action>) {
    forall a | a in acts :: !a.Retry? && !a.GiveUp? && (a.Elect? ==> a.lap.None? && a.failAt.None?)
  }

  const PATH: seq<Step> := [Pending, ClaimingSandbox, Dispatching, Running, Collecting, Succeeded]

  ghost predicate PathSoFar(s: Store) {
    && |s.audit| < 6 && s.step == PATH[|s.audit|]
    && (forall i | 0 <= i < |s.audit| :: s.audit[i].from == PATH[i] && s.audit[i].to == PATH[i + 1])
  }

  lemma AdvanceStaysOnPath(s: Store, step: Step, fence: int, task: TaskId)
    requires PathSoFar(s) && Next(step).Some?
    ensures PathSoFar(Advance(s, step, Next(step).value, fence, task).0)
  {
    assert PATH[|s.audit|] == s.step;
  }

  ghost predicate OnPath(s: State) {
    && PathSoFar(s.store)
    && (forall t | t in s.world.executions :: t == FirstAttempt)
    && (forall id | id in s.leaders :: s.leaders[id].lap.None? && s.leaders[id].failAt.None?)
  }

  lemma StepStaysOnPath(s: State, a: Action)
    requires OnPath(s) && !a.Retry? && !a.GiveUp? && (a.Elect? ==> a.lap.None? && a.failAt.None?)
    ensures OnPath(StepOf(s, a))
  {
    var t := StepOf(s, a);
    if a.Move? && a.id in s.leaders && s.leaders[a.id].pc.Advancing? && Next(s.leaders[a.id].pc.step).Some? {
      var l := s.leaders[a.id];
      AdvanceStaysOnPath(s.store, l.pc.step, l.fence, TaskOf(l.lap));
    }
  }

  lemma {:induction false} SingleAttemptStaysOnPath(s: State, acts: seq<Action>, k: nat)
    requires Initial(s) && SingleAttempt(acts) && k <= |acts|
    ensures OnPath(StateAt(s, acts, k))
  {
    if k > 0 {
      SingleAttemptStaysOnPath(s, acts, k - 1);
      assert acts[k - 1] in acts;
      StepStaysOnPath(StateAt(s, acts, k - 1), acts[k - 1]);
    }
  }

  lemma SingletonByElement<T>(s: seq<T>, x: T)
    requires Distinct(s) && x in s && forall y | y in s :: y == x
    ensures s == [x]
  {
    assert |s| <= 1 || s[0] != s[1];
    forall i | 0 <= i < |s| ensures s[i] == x { assert s[i] in s; }
  }

  /**
   Crash transparency: however many leaders crashed, raced or were fenced out on the way, a Run that
   reached succeeded looks exactly like one uninterrupted drive: one sandbox, one agent execution,
   one artifact, the five transitions in order, one audit row and one outbox event for each.
   */
  lemma SuccessLooksCrashFree(s: State, acts: seq<Action>, k: nat)
    requires Initial(s) && SingleAttempt(acts) && k <= |acts|
    requires StateAt(s, acts, k).store.step == Succeeded
    ensures var t := StateAt(s, acts, k);
      && t.world.binds == [RUN_ID] && t.world.executions == [FirstAttempt] && t.world.artifacts == map[PATCH := DIFF]
      && |t.store.audit| == 5 && t.store.outbox == t.store.audit
      && (forall i | 0 <= i < 5 :: t.store.audit[i].from == PATH[i] && t.store.audit[i].to == PATH[i + 1])
      && |t.world.terminals| <= 1
  {
    EveryRunIsSafe(s, acts, k);
    SingleAttemptStaysOnPath(s, acts, k);
    var t := StateAt(s, acts, k);
    assert |t.store.audit| == 5;
    assert t.store.audit[1].from.ClaimingSandbox? && t.store.audit[2].from.Dispatching? && t.store.audit[4].from.Collecting?;
    SingletonByElement(t.world.binds, RUN_ID);
    assert t.store.audit[2].task in t.world.executions;
    SingletonByElement(t.world.executions, FirstAttempt);
    forall row | row in t.world.terminals ensures row == 4 {
      assert t.store.audit[row].to == PATH[row + 1];
    }
    if t.world.terminals != [] {
      assert t.world.terminals[0] in t.world.terminals;
      SingletonByElement(t.world.terminals, 4);
    }
  }

  // ---------- retry laps ----------

  /** How a driver labels the laps of a Run: no lapId at all, or a number per lap. */
  type Labels = nat -> Option<int>

  /** Every leader is started for the lap the record is in, with a fence it can have read there. */
  ghost predicate StartedForLap(s: State, acts: seq<Action>, lapId: Labels) {
    forall k | 0 <= k < |acts| && acts[k].Elect? ::
      acts[k].lap == lapId(StateAt(s, acts, k).store.lap) && acts[k].fence <= StateAt(s, acts, k).store.fence
  }

  /** The leader belongs to lap n; one with the present fence belongs to the present lap. */
  ghost predicate LedIn(s: State, lapId: Labels, l: Leader, n: nat) {
    n <= s.store.lap && l.lap == lapId(n) && l.fence <= s.store.fence && (l.fence == s.store.fence ==> n == s.store.lap)
  }

  /** The task is the one of some lap so far. */
  ghost predicate TaskOfLap(s: State, lapId: Labels, task: TaskId) {
    exists n: nat :: n <= s.store.lap && task == TaskOf(lapId(n))
  }

  ghost predicate Laps(s: State, lapId: Labels) {
    && Chained(s.store)
    && (forall id <- s.leaders :: exists n: nat :: LedIn(s, lapId, s.leaders[id], n))
    && (forall task <- s.world.executions :: TaskOfLap(s, lapId, task))
    && (forall i | 0 <= i < |s.store.audit| :: s.store.audit[i].task == TaskOf(lapId(s.store.audit[i].lap)))
  }

  lemma LeaderKeepsItsLap(s: State, a: Action, lapId: Labels, id: nat)
    requires Laps(s, lapId) && id in StepOf(s, a).leaders
    requires a.Elect? ==> a.lap == lapId(s.store.lap) && a.fence <= s.store.fence
    ensures exists n: nat :: LedIn(StepOf(s, a), lapId, StepOf(s, a).leaders[id], n)
  {
    var t := StepOf(s, a);
    if id in s.leaders {
      var n: nat :| LedIn(s, lapId, s.leaders[id], n);
      assert LedIn(t, lapId, t.leaders[id], n);
    } else {
      assert LedIn(t, lapId, t.leaders[id], s.store.lap);
    }
  }

  lemma ExecutionsKeepTheirLap(s: State, a: Action, lapId: Labels)
    requires Laps(s, lapId)
    ensures forall task <- StepOf(s, a).world.executions :: TaskOfLap(StepOf(s, a), lapId, task)
  {
    var t := StepOf(s, a);
    forall task <- t.world.executions ensures TaskOfLap(t, lapId, task) {
      if task in s.world.executions {
        var n: nat :| n <= s.store.lap && task == TaskOf(lapId(n));
        assert n <= t.store.lap;
      } else {
        var n: nat :| LedIn(s, lapId, s.leaders[a.id], n);
        assert n <= t.store.lap && task == TaskOf(lapId(n));
      }
    }
  }

  lemma StepKeepsLaps(s: State, a: Action, lapId: Labels)
    requires Laps(s, lapId)
    requires a.Elect? ==> a.lap == lapId(s.store.lap) && a.fence <= s.store.fence
    ensures Laps(StepOf(s, a), lapId)
  {
    forall id <- StepOf(s, a).leaders ensures exists n: nat :: LedIn(StepOf(s, a), lapId, StepOf(s, a).leaders[id], n) {
      LeaderKeepsItsLap(s, a, lapId, id);
    }
    ExecutionsKeepTheirLap(s, a, lapId);
    if a.ReclaimTo? || a.Retry? || a.GiveUp? {
      ReentryKeepsChain(s.store, a.fence);
    } else if a.Move? && a.id in s.leaders && s.leaders[a.id].pc.Advancing? {
      var l := s.leaders[a.id];
      var n: nat :| LedIn(s, lapId, l, n);
      if Next(l.pc.step).Some? {
        AdvanceKeepsChain(s.store, l.pc.step, Target(l, l.pc.step), l.fence, TaskOf(l.lap));
      }
    }
  }

  lemma {:induction false} LapsAt(s: State, acts: seq<Action>, lapId: Labels, k: nat)
    requires Initial(s) && StartedForLap(s, acts, lapId) && k <= |acts|
    ensures Laps(StateAt(s, acts, k), lapId)
  {
    if k > 0 {
      LapsAt(s, acts, lapId, k - 1);
      StepKeepsLaps(StateAt(s, acts, k - 1), acts[k - 1], lapId);
    }
  }

  /**
   Over any number of retries, crashes and races: the journal is one unbroken chain, every execution
   is that of some lap and none happens twice, so a lap executes at most once when labels differ, and a
   lap that got past its dispatch executed its own task.
   */
  lemma OneExecutionPerLap(s: State, acts: seq<Action>, lapId: Labels, k: nat)
    requires Initial(s) && StartedForLap(s, acts, lapId) && k <= |acts|
    ensures var t := StateAt(s, acts, k);
      && Chained(t.store) && Distinct(t.world.executions)
      && (forall task <- t.world.executions :: TaskOfLap(t, lapId, task))
      && (forall i | 0 <= i < |t.store.audit| && t.store.audit[i].from.Dispatching? ::
            TaskOf(lapId(t.store.audit[i].lap)) in t.world.executions)
  {
    EveryRunIsSafe(s, acts, k);
    LapsAt(s, acts, lapId, k);
    var t := StateAt(s, acts, k);
    forall i | 0 <= i < |t.store.audit| && t.store.audit[i].from.Dispatching?
      ensures TaskOf(lapId(t.store.audit[i].lap)) in t.world.executions
    {
      assert Applied(t.world, t.store.audit[i].from, t.store.audit[i].task);
    }
  }

  /** A Run that succeeded after retries ends with its last lap's four transitions and executed that lap's task once. */
  lemma RetriedSuccessLooksCrashFree(s: State, acts: seq<Action>, lapId: Labels, k: nat)
    requires Initial(s) && StartedForLap(s, acts, lapId) && k <= |acts|
    requires StateAt(s, acts, k).store.step == Succeeded
    ensures var t := StateAt(s, acts, k);
      && EndsWithFullLap(t.store) && Chained(t.store) && t.store.outbox == t.store.audit
      && multiset(t.world.executions)[TaskOf(lapId(t.store.lap))] == 1
      && t.world.binds == [RUN_ID] && t.world.artifacts == map[PATCH := DIFF]
  {
    EveryRunIsSafe(s, acts, k);
    OneExecutionPerLap(s, acts, lapId, k);
    var t := StateAt(s, acts, k);
    var audit, n := t.store.audit, |t.store.audit|;
    SuccessEndsOneLap(t.store);
    assert audit[n - 3].from.Dispatching?;
    OnceEach(t.world.executions, TaskOf(lapId(t.store.lap)));
    FinishedWorld(t.world, audit[n - 4].task, audit[n - 1].task);
  }

  lemma FinishedWorld(w: World, a: TaskId, b: TaskId)
    requires AtMostOnce(w) && Applied(w, ClaimingSandbox, a) && Applied(w, Collecting, b)
    ensures w.binds == [RUN_ID] && w.artifacts == map[PATCH := DIFF]
  {
    SingletonByElement(w.binds, RUN_ID);
  }

  // ---------- the driver's own labels ----------

  predicate IsRetry(task: TaskId) { task.RetryAttempt? }

  /** The driver's lap ledger: how many executions carry a lap label. */
  function LapsUsed(executions: seq<TaskId>): nat {
    if executions == [] then 0
    else LapsUsed(executions[..|executions| - 1]) + if IsRetry(executions[|executions| - 1]) then 1 else 0
  }

  /** The label the driver gives a leader: none while the ledger is empty, else the next number. */
  function DriverLabel(executions: seq<TaskId>): Option<int> {
    if LapsUsed(executions) == 0 then None else Some(LapsUsed(executions) + 1)
  }

  /** Every leader is started by the driver, with the label it computes then. */
  ghost predicate DriverLed(s: State, acts: seq<Action>) {
    forall k: nat | k < |acts| :: LabelledByDriver(s, acts, k)
  }

  ghost predicate LabelledByDriver(s: State, acts: seq<Action>, k: nat)
    requires k < |acts|
  {
    acts[k].Elect? ==> acts[k].lap == DriverLabel(StateAt(s, acts, k).world.executions)
  }

  ghost predicate Unlabelled(s: State) {
    && (forall task <- s.world.executions :: task == FirstAttempt)
    && (forall id <- s.leaders :: s.leaders[id].lap.None?)
  }

  lemma {:induction false} LedgerEmpty(executions: seq<TaskId>)
    requires forall task <- executions :: task == FirstAttempt
    ensures LapsUsed(executions) == 0
  {
    if executions != [] {
      var front, last := executions[..|executions| - 1], executions[|executions| - 1];
      assert last in executions && forall task <- front :: task in executions;
      LedgerEmpty(front);
    }
  }

  /** The driver gives no label exactly while no execution carries one, and otherwise one more than there are. */
  lemma {:induction false} DriverLabelIff(executions: seq<TaskId>)
    ensures DriverLabel(executions).None? <==> forall i | 0 <= i < |executions| :: executions[i] == FirstAttempt
    ensures DriverLabel(executions).Some? ==> 2 <= DriverLabel(executions).value <= |executions| + 1
  {
    if executions != [] { DriverLabelIff(executions[..|executions| - 1]); }
  }

  lemma StepKeepsUnlabelled(s: State, a: Action)
    requires Unlabelled(s) && (a.Elect? ==> a.lap.None?)
    ensures Unlabelled(StepOf(s, a))
  {
  }

  lemma {:induction false} DriverNeverLabels(s: State, acts: seq<Action>, k: nat)
    requires Initial(s) && DriverLed(s, acts) && k <= |acts|
    ensures Unlabelled(StateAt(s, acts, k))
  {
    if k > 0 {
      DriverNeverLabels(s, acts, k - 1);
      assert LabelledByDriver(s, acts, k - 1);
      LedgerEmpty(StateAt(s, acts, k - 1).world.executions);
      StepKeepsUnlabelled(StateAt(s, acts, k - 1), acts[k - 1]);
    }
  }

  /**
   The ledger counts only labelled executions, and an execution is labelled only once the ledger is not
   empty. So from admission, over any deaths, retries and races, the agent executes at most once in the whole
   Run, however many laps are entered, and the retry budget is never used up.
   */
  lemma RetriesNeverReexecute(s: State, acts: seq<Action>, k: nat)
    requires Initial(s) && DriverLed(s, acts) && k <= |acts|
    ensures var t := StateAt(s, acts, k);
      (t.world.executions == [] || t.world.executions == [FirstAttempt]) && LapsUsed(t.world.executions) == 0
  {
    EveryRunIsSafe(s, acts, k);
    DriverNeverLabels(s, acts, k);
    var executions := StateAt(s, acts, k).world.executions;
    LedgerEmpty(executions);
    if executions != [] {
      assert executions[0] in executions;
      SingletonByElement(executions, FirstAttempt);
    }
  }

  /** One undisturbed phase of a current leader: read, fire the effect, commit the advance. */
  lemma OnePhase(s: State, id: nat)
    requires id in s.leaders && s.leaders[id].pc.Reading? && s.leaders[id].fence == s.store.fence
    requires s.leaders[id].failAt.None? && Rank(s.store.step) < 4
    ensures var l, step := s.leaders[id], s.store.step; var task := TaskOf(l.lap);
      Drive(s, id, 3) ==
      State(Advance(s.store, step, Next(step).value, l.fence, task).0, Effect(s.world, step, task), s.leaders)
  {
    var l, step := s.leaders[id], s.store.step;
    var one, two := At(s, id, Acting(step)), At(s, id, Advancing(step)).(world := Effect(s.world, step, TaskOf(l.lap)));
    ReadMove(s, id);
    ActMove(one, id, step);
    assert two == StepOf(one, Move(id, true));
    CommitMove(two, id, step);
    assert two.leaders[id := l] == s.leaders;
    DriveThree(s, id);
  }

  lemma ReadMove(s: State, id: nat)
    requires id in s.leaders && s.leaders[id].pc.Reading? && !IsTerminal(s.store.step)
    ensures StepOf(s, Move(id, true)) == At(s, id, Acting(s.store.step))
  {
  }

  lemma ActMove(s: State, id: nat, step: Step)
    requires id in s.leaders && s.leaders[id].pc == Acting(step)
    ensures StepOf(s, Move(id, true)) ==
      At(s, id, Advancing(step)).(world := Effect(s.world, step, TaskOf(s.leaders[id].lap)))
  {
  }

  lemma CommitMove(s: State, id: nat, step: Step)
    requires id in s.leaders && s.leaders[id].pc == Advancing(step) && step == s.store.step && Rank(step) < 4
    requires s.leaders[id].fence == s.store.fence && s.leaders[id].failAt.None?
    ensures var l := s.leaders[id];
      StepOf(s, Move(id, true)) ==
      At(s, id, Reading).(store := Advance(s.store, step, Next(step).value, l.fence, TaskOf(l.lap)).0)
  {
  }

  lemma DriveThree(s: State, id: nat)
    ensures Drive(s, id, 3) == StepOf(StepOf(StepOf(s, Move(id, true)), Move(id, true)), Move(id, true))
  {
    var one := StepOf(s, Move(id, true));
    var two := StepOf(one, Move(id, true));
    assert Drive(two, id, 1) == Drive(StepOf(two, Move(id, true)), id, 0);
    assert Drive(one, id, 2) == Drive(two, id, 1);
  }

  lemma {:induction false} DriveIsMoves(s: State, acts: seq<Action>, k: nat, id: nat, n: nat)
    requires k + n <= |acts| && forall i | k <= i < k + n :: acts[i] == Move(id, true)
    ensures StateAt(s, acts, k + n) == Drive(StateAt(s, acts, k), id, n)
    decreases n
  {
    if n > 0 {
      DriveIsMoves(s, acts, k + 1, id, n - 1);
    }
  }

  function Repeat(id: nat, n: nat): seq<Action> { seq(n, _ => Move(id, true)) }

  /** A first lap that gets past its dispatch and dies, and a second one that gets as far. */
  function TwoLaps(): seq<Action> {
    [Elect(1, 1, None, None)] + Repeat(1, 9) + [Retry(2)] + [Elect(2, 2, None, None)] + Repeat(2, 6)
  }

  lemma FirstLap(s: State)
    requires Initial(s)
    ensures var t := StateAt(s, TwoLaps(), 10);
      && t.store.step == Running && t.store.fence == 1 && t.store.lap == 0 && |t.store.audit| == 3
      && t.world.executions == [FirstAttempt] && t.leaders == map[1 := Leader(1, None, None, Reading)]
  {
    var acts := TwoLaps();
    assert StateAt(s, acts, 0) == s;
    assert acts[0] == Elect(1, 1, None, None);
    DriveIsMoves(s, acts, 1, 1, 3);
    OnePhase(StateAt(s, acts, 1), 1);
    DriveIsMoves(s, acts, 4, 1, 3);
    OnePhase(StateAt(s, acts, 4), 1);
    DriveIsMoves(s, acts, 7, 1, 3);
    OnePhase(StateAt(s, acts, 7), 1);
  }

  lemma SecondLapBegins(s: State)
    requires Initial(s)
    ensures StateAt(s, TwoLaps(), 11).world.executions == [FirstAttempt]
    ensures var t := StateAt(s, TwoLaps(), 12);
      && t.store.step == ClaimingSandbox && t.store.fence == 2 && t.store.lap == 1 && |t.store.audit| == 3
      && t.world.executions == [FirstAttempt]
      && 2 in t.leaders && t.leaders[2] == Leader(2, None, None, Reading)
  {
    var acts := TwoLaps();
    FirstLap(s);
    var t := StateAt(s, acts, 10);
    assert acts[10] == Retry(2) && acts[11] == Elect(2, 2, None, None);
    assert StateAt(s, acts, 11) == t.(store := RetryEnter(t.store, 2));
  }

  /** The driver's own labels, a death after dispatch and a retry: the second lap runs on the first lap's execution. */
  lemma SecondLapReusesExecution(s: State)
    requires Initial(s)
    ensures DriverLed(s, TwoLaps())
    ensures var t := StateAt(s, TwoLaps(), 18);
      && t.store.lap == 1 && t.store.step == Running && t.world.executions == [FirstAttempt]
      && |t.store.audit| == 5 && t.store.audit[4].from.Dispatching? && t.store.audit[4].lap == 1
  {
    var acts := TwoLaps();
    SecondLapBegins(s);
    DriveIsMoves(s, acts, 12, 2, 3);
    DriveIsMoves(s, acts, 15, 2, 3);
    TwoPhases(StateAt(s, acts, 12), 2);
    TwoLapsAreDriverLed(s);
  }

  lemma OnlyTwoElections(k: nat)
    requires k < |TwoLaps()| && TwoLaps()[k].Elect?
    ensures (k == 0 || k == 11) && TwoLaps()[k].lap.None?
  {
  }

  lemma TwoLapsAreDriverLed(s: State)
    requires Initial(s)
    ensures DriverLed(s, TwoLaps())
  {
    FirstLap(s);
    LedgerEmpty([FirstAttempt]);
    SecondLapBegins(s);
    forall k: nat | k < |TwoLaps()| ensures LabelledByDriver(s, TwoLaps(), k) {
      if TwoLaps()[k].Elect? { OnlyTwoElections(k); }
    }
  }

  lemma TwoPhases(s: State, id: nat)
    requires id in s.leaders && s.leaders[id].pc.Reading? && s.leaders[id].fence == s.store.fence
    requires s.leaders[id].failAt.None? && s.leaders[id].lap.None? && s.store.step == ClaimingSandbox
    requires s.world.executions == [FirstAttempt]
    ensures var t := Drive(Drive(s, id, 3), id, 3); var n := |s.store.audit|;
      && t.store.lap == s.store.lap && t.store.step == Running && t.world.executions == [FirstAttempt]
      && |t.store.audit| == n + 2 && t.store.audit[n + 1].from.Dispatching? && t.store.audit[n + 1].lap == s.store.lap
  {
    OnePhase(s, id);
    OnePhase(Drive(s, id, 3), id);
  }

  /** Two laps that both got past their dispatch executed different tasks exactly when they were labelled differently. */
  lemma LapsExecuteApartIff(s: State, acts: seq<Action>, lapId: Labels, k: nat, i: nat, j: nat)
    requires Initial(s) && StartedForLap(s, acts, lapId) && k <= |acts|
    requires i < j < |StateAt(s, acts, k).store.audit|
    requires StateAt(s, acts, k).store.audit[i].from.Dispatching? && StateAt(s, acts, k).store.audit[j].from.Dispatching?
    ensures var t := StateAt(s, acts, k); var a, b := t.store.audit[i], t.store.audit[j];
      && a.lap < b.lap && a.task in t.world.executions && b.task in t.world.executions
      && (a.task != b.task <==> lapId(a.lap) != lapId(b.lap))
  {
    EveryRunIsSafe(s, acts, k);
    LapsAt(s, acts, lapId, k);
    var t := StateAt(s, acts, k);
    assert Before(t.store.audit[i], t.store.audit[j]);
    assert Applied(t.world, t.store.audit[i].from, t.store.audit[i].task);
    assert Applied(t.world, t.store.audit[j].from, t.store.audit[j].task);
  }

  // ---------- recovery ----------

  /** A step read earlier from which no advance can commit any more. */
  ghost predicate Stale(s: State, step: Step) { step != s.store.step || Next(step).None? }

  ghost function MovesLeft(s: State, id: nat): nat
    requires id in s.leaders
  {
    4 * (5 - Rank(s.store.step)) + match s.leaders[id].pc
      case Reading => 3
      case Acting(step) => if Stale(s, step) then 5 else 2
      case Advancing(step) => if Stale(s, step) then 4 else 1
      case Announcing(_) => 4
      case Returned => 0
  }

  /** A leader at work under the present fence, whatever step it last read. */
  ghost predicate Current(s: State, id: nat) {
    && id in s.leaders
    && var l := s.leaders[id];
    && l.fence == s.store.fence && l.failAt.None?
    && (s.store.step == Succeeded || Next(s.store.step).Some?)
    && (l.pc.Returned? ==> s.store.step == Succeeded)
  }

  /**
   Recovery from the durable step alone: left undisturbed, a successor with the present fence drives
   any interrupted Run to succeeded and returns.
   */
  lemma {:induction false} SuccessorFinishes(s: State, id: nat) returns (moves: nat, end: State)
    requires Current(s, id)
    ensures end == Drive(s, id, moves)
    ensures id in end.leaders && end.leaders[id].pc.Returned? && end.store.step == Succeeded
    ensures s.store.step == Succeeded ==>
      end.store == s.store && forall row <- s.world.terminals :: row in end.world.terminals
    ensures s.store.step != Succeeded || (s.leaders[id].pc.Announcing? && s.leaders[id].pc.row == |s.store.audit| - 1) ==>
      |end.store.audit| > 0 && |end.store.audit| - 1 in end.world.terminals
    decreases MovesLeft(s, id)
  {
    if s.leaders[id].pc.Returned? {
      moves, end := 0, s;
    } else {
      var next := StepOf(s, Move(id, true));
      var rest;
      rest, end := SuccessorFinishes(next, id);
      moves := rest + 1;
    }
  }

  ghost function Drive(s: State, id: nat, moves: nat): State
    decreases moves
  {
    if moves == 0 then s else Drive(StepOf(s, Move(id, true)), id, moves - 1)
  }
}

/** One leader's reconcile loop, with its injected crash windows and its pass bound. */
module RunLoop {
  import opened Basics
  import opened RunStore

  datatype Options = Options(
    fence: int, lap: Option<int>, failAt: Option<Step>,
    crashBefore: Option<Step>, crashAfterEffect: Option<Step>, maxPasses: nat, effectFailsAt: Option<Step>)

  /** `Errored` is the effect's own error, returned before anything is committed past it. */
  datatype Result = Finished | Stopped | Crashed(at: Step) | Errored(at: Step)

  /** The drive at this step stops on an injected crash or on its effect's error. */
  predicate StopsAt(o: Options, step: Step) {
    o.crashBefore == Some(step) || o.crashAfterEffect == Some(step) || o.effectFailsAt == Some(step)
  }

  /** Bounded, finished, about to stop, or on the happy path under the present fence. */
  predicate Returns(o: Options, s: Store) {
    o.maxPasses > 0 || IsTerminal(s.step) || StopsAt(o, s.step) || (Next(s.step).Some? && o.fence == s.fence)
  }

  class Controller {
    var store: Store
    var world: World

    constructor ()
      ensures store == Store(Pending, 1, 0, [], []) && world == EMPTY_WORLD && Valid()
    {
      store, world := Store(Pending, 1, 0, [], []), EMPTY_WORLD;
    }

    ghost predicate Valid()
      reads this
    {
      Journaled(store) && AtMostOnce(world) && forall row | row in world.terminals :: row < |store.audit|
    }

    /** The tail of a phase: the guarded advance out of `step`, and the announcement of a terminal one. */
    method CommitAdvance(o: Options, step: Step)
      requires Valid() && step == store.step && Applied(world, step, TaskOf(o.lap))
      modifies this
      ensures Valid() && world.(terminals := []) == old(world).(terminals := [])
      ensures o.fence == old(store.fence) && Next(step).Some? ==>
        && store.step == (if o.failAt == Some(step) then Failed else Next(step).value)
        && store.audit == old(store.audit) + [Edge(step, store.step, o.fence, store.lap, TaskOf(o.lap))]
      ensures world.terminals == old(world.terminals) +
        if store.audit != old(store.audit) && IsTerminal(store.step) then [|old(store.audit)|] else []
      ensures !(o.fence == old(store.fence) && Next(step).Some?) ==> store == old(store)
      ensures store.fence == old(store.fence) && store.lap == old(store.lap)
    {
      if Next(step).Some? {
        var next := if o.failAt == Some(step) then Failed else Next(step).value;
        AdvanceKeepsJournal(store, step, next, o.fence, TaskOf(o.lap));
        assert |store.audit| !in world.terminals;
        var (after, committed) := Advance(store, step, next, o.fence, TaskOf(o.lap));
        store := after;
        if committed && IsTerminal(next) {
          world := world.(terminals := world.terminals + [|store.audit| - 1]);
        }
      }
    }

    /** One phase: fire the effect, stop on its error or at the crash window after it, else commit the advance. */
    method RunPhase(o: Options, step: Step) returns (stop: Option<Result>)
      requires Valid() && step == store.step
      modifies this
      ensures Valid() && Extends(old(world), world)
      ensures store.fence == old(store.fence) && store.lap == old(store.lap)
      ensures stop.Some? ==> store == old(store) && (stop.value == Errored(step) || stop.value == Crashed(step))
      ensures stop == Some(Errored(step)) <==> o.effectFailsAt == Some(step)
      ensures stop == Some(Crashed(step)) <==> o.effectFailsAt != Some(step) && o.crashAfterEffect == Some(step)
      ensures stop != Some(Errored(step)) ==> Applied(world, step, TaskOf(o.lap))
      ensures stop.None? && o.fence == old(store.fence) && Next(step).Some? ==>
        && store.step == (if o.failAt == Some(step) then Failed else Next(step).value)
        && store.audit == old(store.audit) + [Edge(step, store.step, o.fence, store.lap, TaskOf(o.lap))]
      ensures stop.None? && !(o.fence == old(store.fence) && Next(step).Some?) ==> store == old(store)
      ensures !Returns(o, old(store)) ==> stop.None? && store == old(store)
    {
      if o.effectFailsAt == Some(step) { return Some(Errored(step)); }
      EffectIsIdempotent(world, step, TaskOf(o.lap));
      world := Effect(world, step, TaskOf(o.lap));
      if o.crashAfterEffect == Some(step) { return Some(Crashed(step)); }
      CommitAdvance(o, step);
      stop := None;
    }

    /** The loop returns in exactly these cases: in the others no pass ever changes the record it waits on. */
    method Reconcile(o: Options) returns (r: Result)
      requires Valid() && Returns(o, store)
      modifies this
      ensures Valid() && Extends(old(world), world)
      ensures store.fence == old(store.fence) && store.lap == old(store.lap) && old(store.audit) <= store.audit
      ensures o.fence != old(store.fence) ==> store == old(store)
      ensures forall i | |old(store.audit)| <= i < |store.audit| ::
        store.audit[i].fence == o.fence && Applied(world, store.audit[i].from, TaskOf(o.lap))
      ensures r.Finished? ==> IsTerminal(store.step)
      ensures r.Stopped? ==> o.maxPasses > 0 && !IsTerminal(store.step)
      ensures r.Crashed? ==> store.step == r.at
      ensures r.Crashed? ==>
        (o.crashBefore == Some(r.at) || (o.crashAfterEffect == Some(r.at) && Applied(world, r.at, TaskOf(o.lap))))
      ensures r.Errored? ==> store.step == r.at && o.effectFailsAt == Some(r.at)
      ensures forall i | |old(store.audit)| <= i < |store.audit| :: Some(store.audit[i].from) != o.effectFailsAt
      ensures o.maxPasses == 0 && o.crashBefore.None? && o.crashAfterEffect.None? && o.effectFailsAt.None? ==> r.Finished?
      ensures r.Finished? && o.failAt.None? && Next(old(store.step)).Some? ==> store.step == Succeeded
      ensures o.crashBefore == Some(old(store.step)) && !IsTerminal(old(store.step)) ==>
        r == Crashed(old(store.step)) && store == old(store) && world == old(world)
      ensures r.Stopped? && o.fence == old(store.fence) && Next(old(store.step)).Some? ==>
        |store.audit| == |old(store.audit)| + o.maxPasses
    {
      var task := TaskOf(o.lap);
      var passes := 0;
      while !IsTerminal(store.step)
        invariant Valid() && Extends(old(world), world)
        invariant store.fence == old(store.fence) && store.lap == old(store.lap) && old(store.audit) <= store.audit
        invariant o.fence != old(store.fence) ==> store == old(store)
        invariant forall i | |old(store.audit)| <= i < |store.audit| ::
          store.audit[i].fence == o.fence && Applied(world, store.audit[i].from, task)
        invariant forall i | |old(store.audit)| <= i < |store.audit| :: Some(store.audit[i].from) != o.effectFailsAt
        invariant Returns(o, store)
        invariant o.maxPasses > 0 ==> passes <= o.maxPasses
        invariant passes == 0 ==> store == old(store) && world == old(world)
        invariant o.fence == old(store.fence) && Next(old(store.step)).Some? ==>
          |store.audit| == |old(store.audit)| + passes && (Next(store.step).Some? || IsTerminal(store.step))
        invariant passes > 0 ==> o.crashBefore != Some(old(store.step)) || IsTerminal(old(store.step))
        invariant o.failAt.None? && Next(old(store.step)).Some? ==> store.step == Succeeded || Next(store.step).Some?
        decreases if o.maxPasses > 0 then o.maxPasses - passes else 5 - Rank(store.step)
      {
        if o.maxPasses > 0 && passes >= o.maxPasses { return Stopped; }
        passes := passes + 1;
        var step := store.step;
        if o.crashBefore == Some(step) { return Crashed(step); }
        var stop := RunPhase(o, step);
        if stop.Some? { return stop.value; }
      }
      r := Finished;
    }
  }
}
